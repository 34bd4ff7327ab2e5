/** The Lisp's tokens (`lisp/src/tokenize.rs`). */
module Lexing {
  import opened Basics

  datatype Token = OpenParen | CloseParen | OpenBracket | CloseBracket | Name(name: string) | Bytestring(bytes: Bytes)

  datatype LexError = HexMalformed | StringUnended | BadHexEscape | BadEscape | InvalidCharacter

  predicate IsSymbolInitial(c: char) {
    'a' <= c <= 'z' || 'A' <= c <= 'Z' || c == '_'
  }

  predicate IsSymbolContinuation(c: char) {
    IsSymbolInitial(c) || '0' <= c <= '9'
  }

  predicate IsSpace(c: char) {
    c == ' ' || c == '\r' || c == '\n' || c == '\t'
  }

  function AsStringChar(c: char): Option<Byte> {
    if 32 <= c as int < 127 then Some(c as int) else None
  }

  function HexValue(c: char): Option<nat> {
    if '0' <= c <= '9' then Some(c as int - '0' as int)
    else if 'a' <= c <= 'f' then Some(c as int - 'a' as int + 10)
    else if 'A' <= c <= 'F' then Some(c as int - 'A' as int + 10)
    else None
  }

  function ByteFromHex(high: char, low: char): Option<Byte> {
    if HexValue(high).Some? && HexValue(low).Some? then Some(HexValue(high).value * 16 + HexValue(low).value) else None
  }

  /** A character of the text, or a null character past its end. */
  function At(s: string, i: nat): char {
    if i < |s| then s[i] else '\0'
  }

  function From(s: string, i: nat): (r: string)
    ensures i >= 1 && s != "" ==> |r| < |s|
    ensures |r| <= |s|
  {
    if i <= |s| then s[i..] else ""
  }

  /** The literal after `#`. A pair of digits broken off is an error. */
  function TakeHex(s: string): (r: Result<(Bytes, string), LexError>)
    ensures r.Ok? ==> |r.value.1| <= |s|
    decreases |s|
  {
    if !IsSymbolContinuation(At(s, 0)) then Ok(([], s))
    else
      var b := ByteFromHex(At(s, 0), At(s, 1));
      if b.None? then Err(HexMalformed)
      else
        match TakeHex(From(s, 2))
        case Err(e) => Err(e)
        case Ok((bs, rest)) => Ok(([b.value] + bs, rest))
  }

  /** What an escape stands for, and how many characters follow the backslash. */
  function Escape(s: string): Result<(Byte, nat), LexError> {
    match At(s, 0)
    case 'n' => Ok((10, 1))
    case 'r' => Ok((13, 1))
    case 't' => Ok((9, 1))
    case '\"' => Ok((34, 1))
    case 'x' =>
      var b := ByteFromHex(At(s, 1), At(s, 2));
      if b.Some? then Ok((b.value, 3)) else Err(BadHexEscape)
    case _ => Err(BadEscape)
  }

  /** The literal after a quotation mark. Characters that are not printable ASCII are passed over. */
  function TakeString(s: string): (r: Result<(Bytes, string), LexError>)
    ensures r.Ok? ==> |r.value.1| <= |s|
    decreases |s|
  {
    if s == "" then Err(StringUnended)
    else if s[0] == '\\' then
      match Escape(s[1..])
      case Err(e) => Err(e)
      case Ok((b, length)) =>
        match TakeString(From(s, 1 + length))
        case Err(e) => Err(e)
        case Ok((bs, rest)) => Ok(([b] + bs, rest))
    else if s[0] == '\"' then Ok(([], s[1..]))
    else
      match TakeString(s[1..])
      case Err(e) => Err(e)
      case Ok((bs, rest)) => Ok(((if AsStringChar(s[0]).Some? then [AsStringChar(s[0]).value] else []) + bs, rest))
  }

  /** What follows a comment: the next line, if there is one. */
  function SkipComment(s: string): (r: string)
    ensures |r| <= |s|
  {
    if s == "" then "" else if s[0] == '\n' then s[1..] else SkipComment(s[1..])
  }

  /** The characters that continue a symbol. */
  function TakeSymbol(s: string): (r: (string, string))
    ensures |r.1| <= |s|
  {
    if s != "" && IsSymbolContinuation(s[0]) then
      var (more, rest) := TakeSymbol(s[1..]);
      ([s[0]] + more, rest)
    else ("", s)
  }

  /** One turn of the loop: the token that begins the text, if one does, and what follows. */
  function Lex(s: string): (r: Result<(Option<Token>, string), LexError>)
    requires s != ""
    ensures r.Ok? ==> |r.value.1| < |s|
  {
    if IsSpace(s[0]) then Ok((None, s[1..]))
    else if s[0] == '(' then Ok((Some(OpenParen), s[1..]))
    else if s[0] == ')' then Ok((Some(CloseParen), s[1..]))
    else if s[0] == '[' then Ok((Some(OpenBracket), s[1..]))
    else if s[0] == ']' then Ok((Some(CloseBracket), s[1..]))
    else if s[0] == '#' then
      match TakeHex(s[1..])
      case Err(e) => Err(e)
      case Ok((bs, rest)) => Ok((Some(Bytestring(bs)), rest))
    else if s[0] == '\"' then
      match TakeString(s[1..])
      case Err(e) => Err(e)
      case Ok((bs, rest)) => Ok((Some(Bytestring(bs)), rest))
    else if s[0] == ';' then Ok((None, SkipComment(s[1..])))
    else if IsSymbolInitial(s[0]) then
      var (more, rest) := TakeSymbol(s[1..]);
      Ok((Some(Name([s[0]] + more)), rest))
    else Err(InvalidCharacter)
  }

  function Listed(token: Option<Token>): seq<Token> {
    if token.Some? then [token.value] else []
  }

  /** `tokenize`. */
  function Tokens(s: string): Result<seq<Token>, LexError>
    decreases |s|
  {
    if s == "" then Ok([])
    else
      match Lex(s)
      case Err(e) => Err(e)
      case Ok((token, rest)) =>
        match Tokens(rest)
        case Err(e) => Err(e)
        case Ok(tokens) => Ok(Listed(token) + tokens)
  }

  /** The characters still to come. */
  class Characters {
    var remaining: string

    constructor (code: string)
      ensures remaining == code
    {
      remaining := code;
    }

    function Peek(): Option<char>
      reads this
    {
      if remaining == "" then None else Some(remaining[0])
    }

    method Next() returns (c: Option<char>)
      modifies this
      ensures c == old(Peek()) && remaining == From(old(remaining), 1)
    {
      c := Peek();
      if c.Some? {
        remaining := remaining[1..];
      }
    }

    method NextOrZero() returns (c: char)
      modifies this
      ensures c == At(old(remaining), 0) && remaining == From(old(remaining), 1)
    {
      var next := Next();
      c := if next.Some? then next.value else '\0';
    }

    method ReadHex() returns (r: Result<Bytes, LexError>)
      modifies this
      ensures match TakeHex(old(remaining))
              case Ok((bs, rest)) => r == Ok(bs) && remaining == rest
              case Err(e) => r == Err(e)
    {
      var literal: Bytes := [];
      assert forall bs: Bytes :: [] + bs == bs;
      while Peek().Some? && IsSymbolContinuation(Peek().value)
        invariant TakeHex(old(remaining)) == After(literal, TakeHex(remaining))
        decreases |remaining|
      {
        ghost var before := remaining;
        var tens := NextOrZero();
        var ones := NextOrZero();
        assert remaining == From(before, 2);
        var b := ByteFromHex(tens, ones);
        if b.None? {
          return Err(HexMalformed);
        }
        AfterStep(literal, [b.value], TakeHex(remaining));
        literal := literal + [b.value];
      }
      assert literal + [] == literal;
      r := Ok(literal);
    }

    method ReadEscape() returns (r: Result<Byte, LexError>)
      modifies this
      ensures match Escape(old(remaining))
              case Ok((b, length)) => r == Ok(b) && remaining == From(old(remaining), length)
              case Err(e) => r == Err(e) && |remaining| <= |old(remaining)|
    {
      var c := NextOrZero();
      match c
      case 'n' => r := Ok(10);
      case 'r' => r := Ok(13);
      case 't' => r := Ok(9);
      case '\"' => r := Ok(34);
      case 'x' =>
        var tens := NextOrZero();
        var ones := NextOrZero();
        var b := ByteFromHex(tens, ones);
        r := if b.Some? then Ok(b.value) else Err(BadHexEscape);
      case _ => r := Err(BadEscape);
    }

    method ReadString() returns (r: Result<Bytes, LexError>)
      modifies this
      ensures match TakeString(old(remaining))
              case Ok((bs, rest)) => r == Ok(bs) && remaining == rest
              case Err(e) => r == Err(e)
    {
      var literal: Bytes := [];
      assert forall bs: Bytes :: [] + bs == bs && bs + [] == bs;
      while true
        invariant TakeString(old(remaining)) == After(literal, TakeString(remaining))
        decreases |remaining|
      {
        var c := Next();
        if c.None? {
          return Err(StringUnended);
        }
        var bytes: Bytes := [];
        if c.value == '\\' {
          ghost var escape := remaining;
          var b := ReadEscape();
          if b.Err? {
            return Err(b.error);
          }
          bytes := [b.value];
        } else if c.value == '\"' {
          return Ok(literal);
        } else if AsStringChar(c.value).Some? {
          bytes := [AsStringChar(c.value).value];
        }
        AfterStep(literal, bytes, TakeString(remaining));
        literal := literal + bytes;
      }
    }

    method ReadComment()
      modifies this
      ensures remaining == SkipComment(old(remaining))
    {
      var c := Next();
      while c.Some? && c.value != '\n'
        invariant SkipComment(old(remaining)) ==
          if c.Some? && c.value != '\n' then SkipComment(remaining) else remaining
        decreases |remaining|, c.Some?
      {
        c := Next();
      }
    }

    method ReadSymbol(first: char) returns (name: string)
      modifies this
      ensures (name, remaining) == ([first] + TakeSymbol(old(remaining)).0, TakeSymbol(old(remaining)).1)
    {
      name := [first];
      while Peek().Some? && IsSymbolContinuation(Peek().value)
        invariant ([first] + TakeSymbol(old(remaining)).0, TakeSymbol(old(remaining)).1) ==
                  (name + TakeSymbol(remaining).0, TakeSymbol(remaining).1)
        decreases |remaining|
      {
        ghost var (more, _) := TakeSymbol(remaining);
        var c := Next();
        assert name + more == name + [c.value] + TakeSymbol(remaining).0;
        name := name + [c.value];
      }
      assert name + "" == name;
    }
  }

  /** What reading gives, when some bytes were read already. */
  ghost function After(bytes: Bytes, r: Result<(Bytes, string), LexError>): Result<(Bytes, string), LexError> {
    match r
    case Ok((bs, rest)) => Ok((bytes + bs, rest))
    case Err(e) => Err(e)
  }

  lemma AfterStep(bytes: Bytes, more: Bytes, r: Result<(Bytes, string), LexError>)
    ensures After(bytes, After(more, r)) == After(bytes + more, r)
  {
    if r.Ok? {
      assert bytes + (more + r.value.0) == bytes + more + r.value.0;
    }
  }

  /** `tokenize`, character by character. */
  method Tokenize(code: string) returns (r: Result<seq<Token>, LexError>)
    ensures r == Tokens(code)
  {
    var tokens: seq<Token> := [];
    var characters := new Characters(code);
    assert forall ts: seq<Token> :: [] + ts == ts;
    while characters.remaining != ""
      invariant Tokens(code) == Resumed(tokens, Tokens(characters.remaining))
      decreases |characters.remaining|
    {
      var token := ReadOne(characters);
      if token.Err? {
        return Err(token.error);
      }
      ResumedStep(tokens, Listed(token.value), Tokens(characters.remaining));
      tokens := tokens + Listed(token.value);
    }
    assert tokens + [] == tokens;
    r := Ok(tokens);
  }

  /** One turn of the loop. */
  method ReadOne(characters: Characters) returns (r: Result<Option<Token>, LexError>)
    requires characters.remaining != ""
    modifies characters
    ensures match Lex(old(characters.remaining))
            case Ok((token, rest)) => r == Ok(token) && characters.remaining == rest
            case Err(e) => r == Err(e)
  {
    hide TakeHex, TakeString, TakeSymbol, SkipComment;
    var c := characters.Next();
    var first := c.value;
    assert characters.remaining == old(characters.remaining)[1..];
    if IsSpace(first) {
      r := Ok(None);
    } else if first == '(' {
      r := Ok(Some(OpenParen));
    } else if first == ')' {
      r := Ok(Some(CloseParen));
    } else if first == '[' {
      r := Ok(Some(OpenBracket));
    } else if first == ']' {
      r := Ok(Some(CloseBracket));
    } else if first == '#' {
      var literal := characters.ReadHex();
      r := if literal.Ok? then Ok(Some(Bytestring(literal.value))) else Err(literal.error);
    } else if first == '\"' {
      var literal := characters.ReadString();
      r := if literal.Ok? then Ok(Some(Bytestring(literal.value))) else Err(literal.error);
    } else if first == ';' {
      characters.ReadComment();
      r := Ok(None);
    } else if IsSymbolInitial(first) {
      var name := characters.ReadSymbol(first);
      r := Ok(Some(Name(name)));
    } else {
      r := Err(InvalidCharacter);
    }
  }

  ghost function Resumed(tokens: seq<Token>, rest: Result<seq<Token>, LexError>): Result<seq<Token>, LexError> {
    if rest.Ok? then Ok(tokens + rest.value) else rest
  }

  lemma ResumedStep(tokens: seq<Token>, more: seq<Token>, rest: Result<seq<Token>, LexError>)
    ensures Resumed(tokens, Resumed(more, rest)) == Resumed(tokens + more, rest)
  {
    if rest.Ok? {
      assert tokens + (more + rest.value) == tokens + more + rest.value;
    }
  }
}
