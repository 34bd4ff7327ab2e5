/**
 * How nouns are printed (`vm/src/noun.rs`) and how the interactive prompt reads them back (`repl/src/main.rs`).
 * Reading what was printed gives the same noun.
 */
module Repl {
  import opened Basics
  import opened Nouns

  datatype Token = OpenBracket | CloseBracket | Bytestring(bytes: Bytes) | SyntaxError

  predicate IsWhitespace(c: char) {
    c == ' ' || c == '\t' || c == '\n' || c == '\r' || c == '\U{000C}'
  }

  function FromHex(c: char): Option<nat> {
    if '0' <= c <= '9' then Some(c as int - '0' as int)
    else if 'A' <= c <= 'F' then Some(c as int - 'A' as int + 10)
    else if 'a' <= c <= 'f' then Some(c as int - 'a' as int + 10)
    else None
  }

  function FromDecimal(c: char): Option<nat> {
    if '0' <= c <= '9' then Some(c as int - '0' as int) else None
  }

  function HexDigit(d: nat): char
    requires d < 16
  {
    if d < 10 then '0' + d as char else 'a' + (d - 10) as char
  }

  /** Two lower-case digits. */
  function HexByte(b: Byte): string {
    [HexDigit(b / 16), HexDigit(b % 16)]
  }

  function HexBytes(bs: Bytes): string {
    if bs == [] then "" else HexByte(bs[0]) + HexBytes(bs[1..])
  }

  function Decimal(n: nat): (r: string)
    ensures r != "" && FromDecimal(r[0]).Some?
  {
    if n < 10 then ['0' + n as char] else Decimal(n / 10) + ['0' + (n % 10) as char]
  }

  /** The `Debug` text of a noun: one-byte atoms in decimal, for the sake of opcodes. */
  function Shown(n: Noun): string {
    match n
    case Cell(l, r) => "[" + Shown(l) + " " + Shown(r) + "]"
    case Atom(bs) => if |bs| == 1 then Decimal(bs[0]) else "x" + HexBytes(bs)
  }

  function SkipWhitespace(s: string): (r: string)
    ensures |r| <= |s|
    ensures r != "" ==> !IsWhitespace(r[0])
  {
    if s != "" && IsWhitespace(s[0]) then SkipWhitespace(s[1..]) else s
  }

  /** Pairs of hexadecimal digits, up to the first character that is none. Nothing when a pair is broken off. */
  function TakeHex(s: string): (r: (Option<Bytes>, string))
    ensures |r.1| <= |s|
  {
    if s == "" || FromHex(s[0]).None? then (Some([]), s)
    else if |s| == 1 then (None, "")
    else if FromHex(s[1]).None? then (None, s[2..])
    else
      match TakeHex(s[2..])
      case (None, rest) => (None, rest)
      case (Some(bs), rest) => (Some([FromHex(s[0]).value * 16 + FromHex(s[1]).value] + bs), rest)
  }

  /** Further decimal digits of a number. Nothing when it outgrows 64 bits. */
  function TakeDecimal(value: nat, s: string): (r: (Option<nat>, string))
    ensures |r.1| <= |s|
    decreases |s|
  {
    if s == "" || FromDecimal(s[0]).None? then (Some(value), s)
    else
      var more := value * 10 + FromDecimal(s[0]).value;
      if more < USIZE_LIMIT then TakeDecimal(more, s[1..]) else (None, s[1..])
  }

  /** `Tokenizer::next`. */
  function NextToken(s: string): (r: (Option<Token>, string))
    ensures |r.1| <= |s| && (r.0.Some? ==> |r.1| < |s|)
  {
    var t := SkipWhitespace(s);
    if t == "" then (None, t)
    else if t[0] == '[' then (Some(OpenBracket), t[1..])
    else if t[0] == ']' then (Some(CloseBracket), t[1..])
    else if t[0] == 'x' then
      var (bs, rest) := TakeHex(t[1..]);
      (Some(if bs.Some? then Bytestring(bs.value) else SyntaxError), rest)
    else if FromDecimal(t[0]).Some? then
      var (value, rest) := TakeDecimal(FromDecimal(t[0]).value, t[1..]);
      (Some(if value.None? then SyntaxError
            else if value.value != 0 then Bytestring(CompactBytes(value.value))
            else Bytestring([0])),
       rest)
    else (Some(SyntaxError), t[1..])
  }

  /** `parse`: a noun and the text after it. */
  function Parse(s: string): (r: Option<(Noun, string)>)
    ensures r.Some? ==> |r.value.1| < |s|
    decreases |s|, 0
  {
    match NextToken(s)
    case (Some(OpenBracket), rest) =>
      (match ParseItems(rest)
       case None => None
       case Some((items, after)) => if |items| < 2 then None else Some((Nested(items), after)))
    case (Some(Bytestring(bs)), rest) => Some((Atom(bs), rest))
    case _ => None
  }

  /** The items up to a closing bracket. */
  function ParseItems(s: string): (r: Option<(seq<Noun>, string)>)
    ensures r.Some? ==> |r.value.1| < |s|
    decreases |s|, 1
  {
    var (token, after) := NextToken(s);
    if token == Some(CloseBracket) then Some(([], after))
    else
      match Parse(s)
      case None => None
      case Some((n, rest)) =>
        match ParseItems(rest)
        case None => None
        case Some((ns, after)) => Some(([n] + ns, after))
  }

  /** Text at which a token has ended, whatever it was. */
  predicate Ended(s: string) {
    s == "" || FromHex(s[0]).None?
  }

  lemma HexDigitRead(d: nat)
    requires d < 16
    ensures FromHex(HexDigit(d)) == Some(d)
  {
  }

  lemma HexByteRead(b: Byte, more: string)
    ensures TakeHex(HexByte(b) + more) ==
            match TakeHex(more)
            case (None, rest) => (None, rest)
            case (Some(bs), rest) => (Some([b] + bs), rest)
  {
    var digits := HexByte(b);
    HexDigitRead(b / 16);
    HexDigitRead(b % 16);
    hide HexDigit, FromHex;
    CutSum(digits, more, 2);
    assert (digits + more)[0] == digits[0] && (digits + more)[1] == digits[1];
  }

  lemma {:induction false} HexBytesRead(bs: Bytes, rest: string)
    requires Ended(rest)
    ensures TakeHex(HexBytes(bs) + rest) == (Some(bs), rest)
  {
    if bs == [] {
      assert "" + rest == rest;
    } else {
      Associate(HexByte(bs[0]), HexBytes(bs[1..]), rest);
      HexBytesRead(bs[1..], rest);
      HeadAndTail(bs);
      HexByteRead(bs[0], HexBytes(bs[1..]) + rest);
      hide TakeHex, HexByte;
    }
  }

  /** The digits of a number, read after a value so far. */
  lemma {:induction false} DecimalRead(n: nat, rest: string)
    requires n < USIZE_LIMIT && (rest == "" || FromDecimal(rest[0]).None?)
    ensures var s := Decimal(n); TakeDecimal(FromDecimal(s[0]).value, s[1..] + rest) == (Some(n), rest)
  {
    DecimalReadThen(n, rest);
  }

  lemma {:induction false} DecimalReadThen(n: nat, rest: string)
    requires n < USIZE_LIMIT
    ensures var s := Decimal(n); TakeDecimal(FromDecimal(s[0]).value, s[1..] + rest) == TakeDecimal(n, rest)
  {
    if n < 10 {
      assert Decimal(n)[1..] + rest == rest;
    } else {
      var s := Decimal(n / 10);
      var d := '0' + (n % 10) as char;
      DecimalReadThen(n / 10, [d] + rest);
      CutSum(s, [d], 1);
      Associate(s[1..], [d], rest);
      assert ([d] + rest)[1..] == rest;
      assert n / 10 * 10 + n % 10 == n;
    }
  }

  lemma AtomRead(bs: Bytes, rest: string)
    requires Ended(rest)
    ensures NextToken(Shown(Atom(bs)) + rest) == (Some(Bytestring(bs)), rest)
  {
    if |bs| == 1 {
      DecimalAtomRead(bs[0], rest);
      assert bs == [bs[0]];
    } else {
      HexAtomRead(bs, rest);
    }
  }

  lemma HexAtomRead(bs: Bytes, rest: string)
    requires Ended(rest) && |bs| != 1
    ensures NextToken(Shown(Atom(bs)) + rest) == (Some(Bytestring(bs)), rest)
  {
    HexBytesRead(bs, rest);
    hide TakeHex, TakeDecimal, HexBytes;
    var s := Shown(Atom(bs)) + rest;
    assert s[1..] == HexBytes(bs) + rest;
  }

  lemma DecimalAtomRead(b: Byte, rest: string)
    requires Ended(rest)
    ensures NextToken(Shown(Atom([b])) + rest) == (Some(Bytestring([b])), rest)
  {
    DecimalRead(b, rest);
    assert CompactBytes(b) == if b == 0 then [] else [b];
    var digits := Decimal(b);
    assert FromDecimal(digits[0]).Some?;
    CutSum(digits, rest, 1);
    NumberToken(digits + rest);
    hide *;
    assert (digits + rest)[0] == digits[0];
  }

  lemma NumberToken(s: string)
    requires s != "" && FromDecimal(s[0]).Some?
    ensures var (value, rest) := TakeDecimal(FromDecimal(s[0]).value, s[1..]);
            value.Some? ==>
              NextToken(s) == (Some(Bytestring(if value.value != 0 then CompactBytes(value.value) else [0])), rest)
  {
    hide TakeDecimal, CompactBytes, TakeHex;
  }

  /** A printed noun does not begin with a closing bracket or whitespace. */
  lemma ShownBegins(n: Noun, rest: string)
    ensures var s := Shown(n) + rest; s != "" && !IsWhitespace(s[0]) && s[0] != ']'
  {
  }

  function ShownAll(items: seq<Noun>): string {
    if items == [] then "" else if |items| == 1 then Shown(items[0]) else Shown(items[0]) + " " + ShownAll(items[1..])
  }

  /** A printed noun is read back as itself, and nothing after it is consumed. */
  lemma {:induction false} ShownRead(n: Noun, rest: string)
    requires Ended(rest)
    ensures Parse(Shown(n) + rest) == Some((n, rest))
    decreases n, 1, 0
  {
    match n
    case Atom(bs) => AtomRead(bs, rest);
    case Cell(l, r) =>
      hide NextToken, ParseItems, Shown, ShownAll;
      ItemsRead([l, r], rest, n);
      ShownPair(l, r, rest);
      OpenRead(Shown(n) + rest);
  }

  lemma ShownPair(l: Noun, r: Noun, rest: string)
    ensures var s := Shown(Cell(l, r)) + rest;
            s != "" && s[0] == '[' && s[1..] == ShownAll([l, r]) + ("]" + rest) && Nested([l, r]) == Cell(l, r)
  {
    ShownAllPair(l, r);
    assert Shown(Cell(l, r)) == "[" + Shown(l) + " " + Shown(r) + "]";
    hide Shown, ShownAll;
    Enclosed(Shown(l), Shown(r), rest);
    assert [l, r][1..] == [r];
  }

  lemma ShownAllPair(l: Noun, r: Noun)
    ensures ShownAll([l, r]) == Shown(l) + " " + Shown(r)
  {
    hide Shown;
    assert [l, r][1..] == [r];
  }

  lemma Enclosed(a: string, b: string, rest: string)
    ensures ("[" + a + " " + b + "]" + rest)[1..] == a + " " + b + ("]" + rest)
  {
  }

  /** Printed items are read back as themselves. */
  lemma {:induction false} ItemsRead(items: seq<Noun>, rest: string, n: Noun)
    requires forall i :: 0 <= i < |items| ==> items[i] < n
    ensures ParseItems(ShownAll(items) + ("]" + rest)) == Some((items, rest))
    decreases n, 0, |items|
  {
    hide NextToken, Parse, ParseItems, Shown;
    if items == [] {
      NoItems(rest);
      assert ShownAll(items) + ("]" + rest) == "]" + rest;
    } else {
      var text := ShownAll(items) + ("]" + rest);
      var after := ShownAll(items[1..]) + ("]" + rest);
      var more := if |items| == 1 then after else " " + after;
      ShownAllHead(items, rest);
      hide ShownAll, Ended;
      ShownBegins(items[0], more);
      ShownRead(items[0], more);
      ItemsRead(items[1..], rest, n);
      SpaceSkipped(after);
      HeadAndTail(items);
      hide *;
      OneItem(text);
    }
  }

  lemma NoItems(rest: string)
    ensures ParseItems("]" + rest) == Some(([], rest))
  {
    hide Parse;
    var s := "]" + rest;
    assert s[1..] == rest;
    assert NextToken(s) == (Some(CloseBracket), s[1..]);
  }

  lemma ShownAllHead(items: seq<Noun>, rest: string)
    requires items != []
    ensures var after := ShownAll(items[1..]) + ("]" + rest);
            var more := if |items| == 1 then after else " " + after;
            ShownAll(items) + ("]" + rest) == Shown(items[0]) + more && Ended(more)
  {
    hide Shown;
    if |items| == 1 {
      assert ShownAll(items[1..]) == "";
      assert "" + ("]" + rest) == "]" + rest;
    } else {
      ShownAllMore(items);
      hide ShownAll;
      Spaced(Shown(items[0]), ShownAll(items[1..]), "]" + rest);
    }
  }

  lemma Spaced(a: string, b: string, c: string)
    ensures a + " " + b + c == a + (" " + (b + c))
  {
  }

  lemma ShownAllMore(items: seq<Noun>)
    requires |items| > 1
    ensures ShownAll(items) == Shown(items[0]) + " " + ShownAll(items[1..])
  {
  }

  lemma OneItem(s: string)
    requires s != "" && !IsWhitespace(s[0]) && s[0] != ']'
    requires Parse(s).Some? && ParseItems(Parse(s).value.1).Some?
    ensures var (n, rest) := Parse(s).value;
            var (ns, after) := ParseItems(rest).value;
            ParseItems(s) == Some(([n] + ns, after))
  {
    hide Parse, TakeHex, TakeDecimal;
    assert NextToken(s).0 != Some(CloseBracket);
  }

  /** A space before an item makes no difference. */
  lemma SpaceSkipped(s: string)
    ensures ParseItems(" " + s) == ParseItems(s)
  {
    hide TakeHex, TakeDecimal;
    assert (" " + s)[1..] == s;
    assert NextToken(" " + s) == NextToken(s);
    assert Parse(" " + s) == Parse(s);
  }

  /** Printing and reading are inverse, for every noun. */
  lemma ReadOfShown(n: Noun)
    ensures Parse(Shown(n)) == Some((n, ""))
  {
    ShownRead(n, "");
    assert Shown(n) + "" == Shown(n);
  }

  /** So different nouns print differently. */
  lemma ShownInjective(a: Noun, b: Noun)
    ensures Shown(a) == Shown(b) <==> a == b
  {
    ReadOfShown(a);
    ReadOfShown(b);
  }

  /** A bracketed list of two or more nouns reads as pairs nested to the right. */
  lemma ListRead(items: seq<Noun>)
    requires |items| >= 2
    ensures Parse("[" + ShownAll(items) + "]") == Some((Nested(items), ""))
  {
    hide NextToken, ParseItems, ShownAll;
    ListItemsRead(items, "");
    var s := "[" + ShownAll(items) + "]";
    OpenRead(s);
    assert s[1..] == ShownAll(items) + ("]" + "");
  }

  lemma OpenRead(s: string)
    requires s != "" && s[0] == '['
    ensures NextToken(s) == (Some(OpenBracket), s[1..])
  {
  }

  lemma {:induction false} ListItemsRead(items: seq<Noun>, rest: string)
    requires |items| >= 1
    ensures ParseItems(ShownAll(items) + ("]" + rest)) == Some((items, rest))
  {
    var whole := Whole(items);
    ItemsRead(items, rest, whole);
  }

  /** Some noun that contains all the items. */
  lemma {:induction false} Whole(items: seq<Noun>) returns (n: Noun)
    ensures forall i :: 0 <= i < |items| ==> items[i] < n
  {
    n := Atom([]);
    if items != [] {
      var rest := Whole(items[1..]);
      n := Cell(items[0], rest);
      forall i | 0 < i < |items|
        ensures items[i] < n
      {
        assert items[i] == items[1..][i - 1];
      }
    }
  }

  class Tokenizer {
    var byteStream: string

    constructor (text: string)
      ensures byteStream == text
    {
      byteStream := text;
    }

    method Next() returns (token: Option<Token>)
      modifies this
      ensures (token, byteStream) == NextToken(old(byteStream))
    {
      while byteStream != "" && IsWhitespace(byteStream[0])
        invariant SkipWhitespace(byteStream) == SkipWhitespace(old(byteStream))
        decreases |byteStream|
      {
        byteStream := byteStream[1..];
      }
      if byteStream == "" {
        return None;
      }
      var first := byteStream[0];
      byteStream := byteStream[1..];
      if first == '[' {
        token := Some(OpenBracket);
      } else if first == ']' {
        token := Some(CloseBracket);
      } else if first == 'x' {
        var bytes := NextHex();
        token := Some(if bytes.Some? then Bytestring(bytes.value) else SyntaxError);
      } else if FromDecimal(first).Some? {
        var value := NextDecimal(FromDecimal(first).value);
        token := Some(if value.None? then SyntaxError
                      else if value.value != 0 then Bytestring(CompactBytes(value.value))
                      else Bytestring([0]));
      } else {
        token := Some(SyntaxError);
      }
    }

    /** The loop over pairs of hexadecimal digits. */
    method NextHex() returns (r: Option<Bytes>)
      modifies this
      ensures (r, byteStream) == TakeHex(old(byteStream))
    {
      var atomBytes: Bytes := [];
      assert forall bs: Bytes :: [] + bs == bs;
      while byteStream != "" && FromHex(byteStream[0]).Some?
        invariant var (bs, rest) := TakeHex(byteStream);
                  TakeHex(old(byteStream)) == ((if bs.Some? then Some(atomBytes + bs.value) else None), rest)
        decreases |byteStream|
      {
        ghost var (bs, _) := TakeHex(byteStream);
        var high := FromHex(byteStream[0]).value;
        byteStream := byteStream[1..];
        if byteStream == "" {
          return None;
        }
        var low := FromHex(byteStream[0]);
        byteStream := byteStream[1..];
        if low.None? {
          return None;
        }
        ghost var (more, _) := TakeHex(byteStream);
        if more.Some? {
          Associate(atomBytes, [high * 16 + low.value], more.value);
        }
        atomBytes := atomBytes + [high * 16 + low.value];
      }
      assert atomBytes + [] == atomBytes;
      return Some(atomBytes);
    }

    /** The loop over further decimal digits. */
    method NextDecimal(first: nat) returns (r: Option<nat>)
      modifies this
      ensures (r, byteStream) == TakeDecimal(first, old(byteStream))
    {
      var value: nat := first;
      while byteStream != "" && FromDecimal(byteStream[0]).Some?
        invariant TakeDecimal(first, old(byteStream)) == TakeDecimal(value, byteStream)
        decreases |byteStream|
      {
        var digit := FromDecimal(byteStream[0]).value;
        byteStream := byteStream[1..];
        if value * 10 + digit >= USIZE_LIMIT {
          return None;
        }
        value := value * 10 + digit;
      }
      return Some(value);
    }
  }

  /** Pairs from the right. */
  method BuildNested(items: seq<Noun>) returns (cell: Noun)
    requires |items| >= 2
    ensures cell == Nested(items)
  {
    var i := |items| - 2;
    cell := Cell(items[i], items[i + 1]);
    while i > 0
      invariant 0 <= i <= |items| - 2 && cell == Nested(items[i..])
    {
      i := i - 1;
      assert items[i..][1..] == items[i + 1..];
      cell := Cell(items[i], cell);
    }
    assert items[0..] == items;
  }

  /** `parse`, over a token stream it advances. Looking ahead at a token does not take it. */
  method ParseTokens(tokens: Tokenizer) returns (r: Option<Noun>)
    modifies tokens
    ensures r.Some? <==> Parse(old(tokens.byteStream)).Some?
    ensures r.Some? ==> Parse(old(tokens.byteStream)) == Some((r.value, tokens.byteStream))
    decreases |tokens.byteStream|
  {
    var first := tokens.Next();
    match first
    case Some(OpenBracket) =>
      var items: seq<Noun> := [];
      ghost var start := tokens.byteStream;
      assert forall ns: seq<Noun> :: [] + ns == ns;
      while NextToken(tokens.byteStream).0 != Some(CloseBracket)
        invariant |tokens.byteStream| < |old(tokens.byteStream)|
        invariant Resumed(ParseItems(start), items, ParseItems(tokens.byteStream))
        decreases |tokens.byteStream|
      {
        ghost var before, rest := items, ParseItems(tokens.byteStream);
        var item := ParseTokens(tokens);
        if item.None? {
          return None;
        }
        items := items + [item.value];
        ResumedStep(ParseItems(start), before, item.value, rest, ParseItems(tokens.byteStream));
      }
      var close := tokens.Next();
      assert items + [] == items;
      if |items| < 2 {
        return None;
      }
      var cell := BuildNested(items);
      return Some(cell);
    case Some(Bytestring(bs)) =>
      return Some(Atom(bs));
    case _ =>
      return None;
  }

  /** What reading all items gives, when some are read already and the rest is still to come. */
  ghost predicate Resumed(all: Option<(seq<Noun>, string)>, items: seq<Noun>, rest: Option<(seq<Noun>, string)>) {
    all == if rest.Some? then Some((items + rest.value.0, rest.value.1)) else None
  }

  lemma ResumedStep(all: Option<(seq<Noun>, string)>, items: seq<Noun>, item: Noun, rest: Option<(seq<Noun>, string)>,
                    rest': Option<(seq<Noun>, string)>)
    requires Resumed(all, items, rest)
    requires rest == if rest'.Some? then Some(([item] + rest'.value.0, rest'.value.1)) else None
    ensures Resumed(all, items + [item], rest')
  {
    if rest'.Some? {
      assert items + ([item] + rest'.value.0) == items + [item] + rest'.value.0;
    }
  }
}
