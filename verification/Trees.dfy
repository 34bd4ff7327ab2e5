/**
 * Parsing the Lisp (`lisp/src/tree.rs`). Parsing is the inverse of writing out a tree's tokens, so of all texts
 * exactly those that stand for a tree's tokens parse, as that tree.
 */
module Trees {
  import opened Basics
  import opened Syntax
  import Lexing
  import Spelling

  type Token = Lexing.Token

  datatype Parsed = EndBrackets | EndParens | Child(node: Node)

  datatype ParseError = UnexpectedEnd | UnexpectedBracket | UnexpectedParenthesis | NoNode | MoreThanOneRoot
    | BadToken(error: Lexing.LexError)

  /** `parse_some`: a node or a closing mark, and the tokens after it. */
  function ParseSome(ts: seq<Token>): (r: Result<(Parsed, seq<Token>), ParseError>)
    ensures r.Ok? ==> |r.value.1| < |ts|
    decreases |ts|, 0
  {
    if ts == [] then Err(UnexpectedEnd)
    else
      match ts[0]
      case OpenParen =>
        (match ParseChildren(ts[1..], EndParens)
         case Err(e) => Err(e)
         case Ok((children, rest)) => Ok((Child(Parent(children)), rest)))
      case CloseParen => Ok((EndParens, ts[1..]))
      case OpenBracket =>
        (match ParseChildren(ts[1..], EndBrackets)
         case Err(e) => Err(e)
         case Ok((children, rest)) => Ok((Child(List(children)), rest)))
      case CloseBracket => Ok((EndBrackets, ts[1..]))
      case Name(x) => Ok((Child(Symbol(x)), ts[1..]))
      case Bytestring(bs) => Ok((Child(Literal(bs)), ts[1..]))
  }

  function WrongEnd(end: Parsed): ParseError {
    if end.EndBrackets? then UnexpectedBracket else UnexpectedParenthesis
  }

  /** The nodes up to a closing mark. The other mark is an error. */
  function ParseChildren(ts: seq<Token>, end: Parsed): (r: Result<(seq<Node>, seq<Token>), ParseError>)
    requires !end.Child?
    ensures r.Ok? ==> |r.value.1| < |ts|
    decreases |ts|, 1
  {
    match ParseSome(ts)
    case Err(e) => Err(e)
    case Ok((got, rest)) =>
      if got == end then Ok(([], rest))
      else if !got.Child? then Err(WrongEnd(got))
      else
        match ParseChildren(rest, end)
        case Err(e) => Err(e)
        case Ok((more, after)) => Ok(([got.node] + more, after))
  }

  function ParseTokens(ts: seq<Token>): Result<Node, ParseError> {
    match ParseSome(ts)
    case Err(e) => Err(e)
    case Ok((got, rest)) =>
      if !got.Child? then Err(NoNode) else if rest != [] then Err(MoreThanOneRoot) else Ok(got.node)
  }

  /** `parse`. */
  function Parse(code: string): Result<Node, ParseError> {
    match Lexing.Tokens(code)
    case Err(e) => Err(BadToken(e))
    case Ok(ts) => ParseTokens(ts)
  }

  /** A tree written out. */
  function TokensOf(node: Node): seq<Token> {
    match node
    case Parent(children) => [Lexing.OpenParen] + TokensOfAll(children) + [Lexing.CloseParen]
    case List(children) => [Lexing.OpenBracket] + TokensOfAll(children) + [Lexing.CloseBracket]
    case Symbol(x) => [Lexing.Name(x)]
    case Literal(bs) => [Lexing.Bytestring(bs)]
  }

  function TokensOfAll(nodes: seq<Node>): seq<Token> {
    if nodes == [] then [] else TokensOf(nodes[0]) + TokensOfAll(nodes[1..])
  }

  function Mark(end: Parsed): Token
    requires !end.Child?
  {
    if end.EndBrackets? then Lexing.CloseBracket else Lexing.CloseParen
  }

  lemma {:induction false} ParseOfTokens(node: Node, rest: seq<Token>)
    ensures ParseSome(TokensOf(node) + rest) == Ok((Child(node), rest))
    decreases node, 1
  {
    var ts := TokensOf(node) + rest;
    match node
    case Parent(children) =>
      assert ts[1..] == TokensOfAll(children) + ([Mark(EndParens)] + rest);
      ParseOfAll(children, EndParens, rest);
    case List(children) =>
      assert ts[1..] == TokensOfAll(children) + ([Mark(EndBrackets)] + rest);
      ParseOfAll(children, EndBrackets, rest);
    case Symbol(x) => assert ts[1..] == rest;
    case Literal(bs) => assert ts[1..] == rest;
  }

  lemma {:induction false} ParseOfAll(nodes: seq<Node>, end: Parsed, rest: seq<Token>)
    requires !end.Child?
    ensures ParseChildren(TokensOfAll(nodes) + ([Mark(end)] + rest), end) == Ok((nodes, rest))
    decreases nodes, 0
  {
    var ts := TokensOfAll(nodes) + ([Mark(end)] + rest);
    if nodes == [] {
      assert ts == [Mark(end)] + rest;
      assert ts[1..] == rest;
    } else {
      var after := TokensOfAll(nodes[1..]) + ([Mark(end)] + rest);
      assert ts == TokensOf(nodes[0]) + after;
      ParseOfTokens(nodes[0], after);
      ParseOfAll(nodes[1..], end, rest);
      assert [nodes[0]] + nodes[1..] == nodes;
    }
  }

  /** Whatever parses was a tree written out. */
  lemma {:induction false} ParsedWas(ts: seq<Token>)
    requires ParseSome(ts).Ok?
    ensures var (got, rest) := ParseSome(ts).value;
            ts == (if got.Child? then TokensOf(got.node) else [Mark(got)]) + rest
    decreases |ts|, 0
  {
    match ts[0]
    case OpenParen => ParsedAllWas(ts[1..], EndParens);
    case OpenBracket => ParsedAllWas(ts[1..], EndBrackets);
    case _ =>
  }

  lemma {:induction false} ParsedAllWas(ts: seq<Token>, end: Parsed)
    requires !end.Child? && ParseChildren(ts, end).Ok?
    ensures var (nodes, rest) := ParseChildren(ts, end).value; ts == TokensOfAll(nodes) + ([Mark(end)] + rest)
    decreases |ts|, 1
  {
    var (got, rest) := ParseSome(ts).value;
    ParsedWas(ts);
    if got == end {
      assert [] + ([Mark(end)] + rest) == [Mark(end)] + rest;
    } else {
      ParsedAllWas(rest, end);
      var (more, after) := ParseChildren(rest, end).value;
      assert ([got.node] + more)[1..] == more;
      assert ts == TokensOf(got.node) + TokensOfAll(more) + ([Mark(end)] + after);
    }
  }

  /** Tokens parse as a tree if and only if they are that tree written out. */
  lemma ParseIsInverse(ts: seq<Token>, node: Node)
    ensures ParseTokens(ts) == Ok(node) <==> ts == TokensOf(node)
  {
    ParseOfTokens(node, []);
    assert TokensOf(node) + [] == TokensOf(node);
    if ParseSome(ts).Ok? {
      ParsedWas(ts);
      var (got, rest) := ParseSome(ts).value;
      if got.Child? && rest == [] {
        assert TokensOf(got.node) + [] == TokensOf(got.node);
      }
    }
  }

  /** However a program is spelled and laid out, it parses as a tree if and only if its tokens are that tree's. */
  lemma ParseOfText(es: seq<Spelling.Element>, node: Node)
    requires Spelling.WellSpaced(es)
    ensures Parse(Spelling.TextAll(es)) == Ok(node) <==> Spelling.MeantAll(es) == TokensOf(node)
  {
    Spelling.TokensOfText(es);
    ParseIsInverse(Spelling.MeantAll(es), node);
  }

  /** A text parses as a tree if and only if it is spelled in elements that mean the tree's tokens. */
  lemma ParsesIffSpelled(code: string, node: Node)
    ensures Parse(code) == Ok(node) <==>
            exists es :: Spelling.WellSpaced(es) && Spelling.TextAll(es) == code &&
              Spelling.MeantAll(es) == TokensOf(node)
  {
    hide ParseTokens;
    Spelling.TokensIffSpelled(code, TokensOf(node));
    if Lexing.Tokens(code).Ok? {
      ParseIsInverse(Lexing.Tokens(code).value, node);
    }
  }

  /** All of a tree's symbols can be written. */
  predicate Writable(node: Node) {
    match node
    case Symbol(x) => Spelling.ValidSymbol(x)
    case Literal(_) => true
    case Parent(children) => forall child :: child in children ==> Writable(child)
    case List(children) => forall child :: child in children ==> Writable(child)
  }

  function DigitsOf(bs: Bytes): seq<(Spelling.Digit, Spelling.Digit)> {
    if bs == [] then []
    else [(Spelling.Digit(bs[0] / 16, false), Spelling.Digit(bs[0] % 16, false))] + DigitsOf(bs[1..])
  }

  /** One way to write a tree: literals in hexadecimal, a space after everything. */
  function Written(node: Node): seq<Spelling.Element> {
    match node
    case Symbol(x) => [Spelling.Symbol(x), Spelling.Space(' ')]
    case Literal(bs) => [Spelling.HexLiteral(DigitsOf(bs)), Spelling.Space(' ')]
    case Parent(children) => [Spelling.Bracket('(')] + WrittenAll(children) + [Spelling.Bracket(')')]
    case List(children) => [Spelling.Bracket('[')] + WrittenAll(children) + [Spelling.Bracket(']')]
  }

  function WrittenAll(nodes: seq<Node>): seq<Spelling.Element> {
    if nodes == [] then [] else Written(nodes[0]) + WrittenAll(nodes[1..])
  }

  /** Anything may follow this element. */
  predicate Closing(e: Spelling.Element) {
    !e.Symbol? && !e.HexLiteral? && !e.LastComment?
  }

  predicate Closed(es: seq<Spelling.Element>) {
    Spelling.WellSpaced(es) && (es != [] ==> Closing(es[|es| - 1]))
  }

  lemma {:induction false} ClosedJoin(a: seq<Spelling.Element>, b: seq<Spelling.Element>)
    requires Closed(a) && Closed(b)
    ensures Closed(a + b)
    ensures Spelling.MeantAll(a + b) == Spelling.MeantAll(a) + Spelling.MeantAll(b)
  {
    MeantJoin(a, b);
  }

  lemma {:induction false} MeantJoin(a: seq<Spelling.Element>, b: seq<Spelling.Element>)
    requires forall e :: e in a + b ==> Spelling.Valid(e)
    requires forall e :: e in a ==> Spelling.Valid(e)
    requires forall e :: e in b ==> Spelling.Valid(e)
    ensures Spelling.MeantAll(a + b) == Spelling.MeantAll(a) + Spelling.MeantAll(b)
  {
    if a == [] {
      assert a + b == b;
    } else {
      assert (a + b)[1..] == a[1..] + b;
      MeantJoin(a[1..], b);
    }
  }

  lemma {:induction false} DigitsOfBytes(bs: Bytes)
    ensures forall d :: d in DigitsOf(bs) ==> Spelling.DigitValid(d.0) && Spelling.DigitValid(d.1)
    ensures Spelling.DigitsBytes(DigitsOf(bs)) == bs
  {
    if bs != [] {
      DigitsOfBytes(bs[1..]);
      assert 16 * (bs[0] / 16) + bs[0] % 16 == bs[0];
      assert DigitsOf(bs)[1..] == DigitsOf(bs[1..]);
      HeadAndTail(bs);
    }
  }

  lemma {:induction false} WrittenMeans(node: Node)
    requires Writable(node)
    ensures Closed(Written(node)) && Spelling.MeantAll(Written(node)) == TokensOf(node)
    decreases node, 1
  {
    match node
    case Symbol(x) =>
      assert Spelling.MeantAll([Spelling.Space(' ')]) == [];
      assert Written(node)[1..] == [Spelling.Space(' ')];
    case Literal(bs) =>
      DigitsOfBytes(bs);
      assert Spelling.MeantAll([Spelling.Space(' ')]) == [];
      assert Written(node)[1..] == [Spelling.Space(' ')];
    case Parent(children) =>
      WrittenAllMeans(children);
      BracketsMean('(', WrittenAll(children), ')');
    case List(children) =>
      WrittenAllMeans(children);
      BracketsMean('[', WrittenAll(children), ']');
  }

  lemma BracketsMean(open: char, es: seq<Spelling.Element>, close: char)
    requires Closed(es) && Spelling.Valid(Spelling.Bracket(open)) && Spelling.Valid(Spelling.Bracket(close))
    ensures var whole := [Spelling.Bracket(open)] + es + [Spelling.Bracket(close)];
            Closed(whole) && Spelling.MeantAll(whole) ==
              [Spelling.Meant(Spelling.Bracket(open)).value] + Spelling.MeantAll(es) +
                [Spelling.Meant(Spelling.Bracket(close)).value]
  {
    ClosedJoin([Spelling.Bracket(open)], es);
    ClosedJoin([Spelling.Bracket(open)] + es, [Spelling.Bracket(close)]);
  }

  lemma {:induction false} WrittenAllMeans(nodes: seq<Node>)
    requires forall node :: node in nodes ==> Writable(node)
    ensures Closed(WrittenAll(nodes)) && Spelling.MeantAll(WrittenAll(nodes)) == TokensOfAll(nodes)
    decreases nodes, 0
  {
    if nodes != [] {
      WrittenMeans(nodes[0]);
      WrittenAllMeans(nodes[1..]);
      ClosedJoin(Written(nodes[0]), WrittenAll(nodes[1..]));
    }
  }

  /** Every tree with lexically valid symbols has a text, and that text parses as it. */
  lemma EveryTreeParses(node: Node)
    requires Writable(node)
    ensures Spelling.WellSpaced(Written(node)) && Parse(Spelling.TextAll(Written(node))) == Ok(node)
  {
    WrittenMeans(node);
    ParseOfText(Written(node), node);
  }

  /** The tokens still to come. */
  class TokenStream {
    var remaining: seq<Token>

    constructor (ts: seq<Token>)
      ensures remaining == ts
    {
      remaining := ts;
    }

    method Next() returns (t: Option<Token>)
      modifies this
      ensures t == if old(remaining) == [] then None else Some(old(remaining)[0])
      ensures remaining == if old(remaining) == [] then [] else old(remaining)[1..]
    {
      if remaining == [] {
        return None;
      }
      t := Some(remaining[0]);
      remaining := remaining[1..];
    }

    method ParseOne() returns (r: Result<Parsed, ParseError>)
      modifies this
      ensures match ParseSome(old(remaining))
              case Ok((got, rest)) => r == Ok(got) && remaining == rest
              case Err(e) => r == Err(e)
      decreases |remaining|, 0
    {
      var token := Next();
      if token.None? {
        return Err(UnexpectedEnd);
      }
      match token.value
      case OpenParen =>
        var children := ParseUntil(EndParens);
        r := if children.Ok? then Ok(Child(Parent(children.value))) else Err(children.error);
      case CloseParen => r := Ok(EndParens);
      case OpenBracket =>
        var children := ParseUntil(EndBrackets);
        r := if children.Ok? then Ok(Child(List(children.value))) else Err(children.error);
      case CloseBracket => r := Ok(EndBrackets);
      case Name(x) => r := Ok(Child(Symbol(x)));
      case Bytestring(bs) => r := Ok(Child(Literal(bs)));
    }

    /** The loop that collects children. */
    method ParseUntil(end: Parsed) returns (r: Result<seq<Node>, ParseError>)
      requires !end.Child?
      modifies this
      ensures match ParseChildren(old(remaining), end)
              case Ok((nodes, rest)) => r == Ok(nodes) && remaining == rest
              case Err(e) => r == Err(e)
      decreases |remaining|, 1
    {
      var children: seq<Node> := [];
      assert forall ns: seq<Node> :: [] + ns == ns && ns + [] == ns;
      while true
        invariant |remaining| <= |old(remaining)|
        invariant ParseChildren(old(remaining), end) == Resumed(children, ParseChildren(remaining, end))
        decreases |remaining|
      {
        ghost var before := remaining;
        var got := ParseOne();
        if got.Err? {
          return Err(got.error);
        }
        if got.value == end {
          return Ok(children);
        }
        if !got.value.Child? {
          return Err(WrongEnd(got.value));
        }
        ResumedStep(children, got.value.node, ParseChildren(remaining, end));
        children := children + [got.value.node];
      }
    }
  }

  ghost function Resumed(nodes: seq<Node>,
                         r: Result<(seq<Node>, seq<Token>), ParseError>): Result<(seq<Node>, seq<Token>), ParseError> {
    match r
    case Ok((more, rest)) => Ok((nodes + more, rest))
    case Err(e) => Err(e)
  }

  lemma ResumedStep(nodes: seq<Node>, node: Node, r: Result<(seq<Node>, seq<Token>), ParseError>)
    ensures Resumed(nodes, Resumed([node], r)) == Resumed(nodes + [node], r)
  {
    if r.Ok? {
      assert nodes + ([node] + r.value.0) == nodes + [node] + r.value.0;
    }
  }

  method ParseProgram(code: string) returns (r: Result<Node, ParseError>)
    ensures r == Parse(code)
  {
    var tokens := Lexing.Tokenize(code);
    if tokens.Err? {
      return Err(BadToken(tokens.error));
    }
    var stream := new TokenStream(tokens.value);
    var root := stream.ParseOne();
    if root.Err? {
      return Err(root.error);
    }
    if !root.value.Child? {
      return Err(NoNode);
    }
    var more := stream.Next();
    r := if more.Some? then Err(MoreThanOneRoot) else Ok(root.value.node);
  }
}
