/**
 * The prompt's texts character by character: what a noun is printed as, and how every token may be written.
 */
module Prompt {
  import opened Basics
  import opened Nouns
  import opened Repl
  import Spelling

  const NUMERALS: string := "0123456789"

  predicate Blank(s: string) {
    forall i :: 0 <= i < |s| ==> s[i] in {' ', '\t', '\n', '\r', '\U{000C}'}
  }

  /** A number's digits, the most significant first. */
  predicate AreNumerals(digits: seq<nat>) {
    forall i :: 0 <= i < |digits| ==> digits[i] < 10
  }

  function NumeralsText(digits: seq<nat>): (r: string)
    requires AreNumerals(digits)
    ensures |r| == |digits|
  {
    if digits == [] then "" else [NUMERALS[digits[0]]] + NumeralsText(digits[1..])
  }

  /** The value of digits that follow a number read so far. */
  function NumeralsValue(value: nat, digits: seq<nat>): (r: nat)
    ensures r >= value
    decreases |digits|
  {
    if digits == [] then value else NumeralsValue(10 * value + digits[0], digits[1..])
  }

  lemma NumeralRead(d: nat)
    requires d < 10
    ensures FromDecimal(NUMERALS[d]) == Some(d) && FromHex(NUMERALS[d]) == Some(d)
  {
    assert forall i :: 0 <= i < 10 ==> NUMERALS[i] == '0' + i as char;
  }

  lemma HexRead(d: Spelling.Digit)
    requires Spelling.DigitValid(d)
    ensures FromHex(Spelling.DigitText(d)) == Some(d.value)
  {
    assert forall i :: 0 <= i < 10 ==> Spelling.LOWER[i] == Spelling.UPPER[i] == '0' + i as char;
    assert forall i :: 10 <= i < 16 ==>
      Spelling.LOWER[i] == 'a' + (i - 10) as char && Spelling.UPPER[i] == 'A' + (i - 10) as char;
  }

  lemma {:induction false} BlankSkipped(ws: string, s: string)
    requires Blank(ws) && (s == "" || s[0] !in {' ', '\t', '\n', '\r', '\U{000C}'})
    ensures SkipWhitespace(ws + s) == s
  {
    if ws == "" {
      assert "" + s == s;
    } else {
      CutSum(ws, s, 1);
      BlankSkipped(ws[1..], s);
    }
  }

  lemma {:induction false} HexTextRead(digits: seq<(Spelling.Digit, Spelling.Digit)>, rest: string)
    requires Ended(rest) && forall d :: d in digits ==> Spelling.DigitValid(d.0) && Spelling.DigitValid(d.1)
    ensures TakeHex(Spelling.DigitsText(digits) + rest) == (Some(Spelling.DigitsBytes(digits)), rest)
  {
    if digits == [] {
      assert "" + rest == rest;
    } else {
      var d := digits[0];
      assert d in digits;
      HexTextRead(digits[1..], rest);
      HexPairRead(d.0, d.1, Spelling.DigitsText(digits[1..]) + rest);
      hide TakeHex, Spelling.DigitText;
      Associate([Spelling.DigitText(d.0), Spelling.DigitText(d.1)], Spelling.DigitsText(digits[1..]), rest);
    }
  }

  lemma HexPairRead(high: Spelling.Digit, low: Spelling.Digit, more: string)
    requires Spelling.DigitValid(high) && Spelling.DigitValid(low)
    ensures TakeHex([Spelling.DigitText(high), Spelling.DigitText(low)] + more) ==
            match TakeHex(more)
            case (None, rest) => (None, rest)
            case (Some(bs), rest) => (Some([Spelling.ByteOf(high, low)] + bs), rest)
  {
    hide Spelling.DigitText, FromHex;
    HexRead(high);
    HexRead(low);
    var pair := [Spelling.DigitText(high), Spelling.DigitText(low)];
    CutSum(pair, more, 2);
    assert (pair + more)[0] == pair[0] && (pair + more)[1] == pair[1];
    assert [] + more == more;
  }

  /** Digits are read as their value, or found to be too many for 64 bits. */
  lemma {:induction false} NumeralsRead(value: nat, digits: seq<nat>, rest: string)
    requires AreNumerals(digits) && value < USIZE_LIMIT && (rest == "" || FromDecimal(rest[0]).None?)
    ensures NumeralsValue(value, digits) < USIZE_LIMIT ==>
              TakeDecimal(value, NumeralsText(digits) + rest) == (Some(NumeralsValue(value, digits)), rest)
    ensures NumeralsValue(value, digits) >= USIZE_LIMIT ==>
              TakeDecimal(value, NumeralsText(digits) + rest).0 == None
    decreases |digits|
  {
    if digits == [] {
      assert "" + rest == rest;
    } else {
      NumeralRead(digits[0]);
      var more := NumeralsText(digits[1..]) + rest;
      Associate([NUMERALS[digits[0]]], NumeralsText(digits[1..]), rest);
      CutSum([NUMERALS[digits[0]]], more, 1);
      assert [] + more == more;
      if 10 * value + digits[0] < USIZE_LIMIT {
        NumeralsRead(10 * value + digits[0], digits[1..], rest);
      }
    }
  }

  /** Brackets, the end, and characters that begin no token, after any blanks. */
  lemma SimpleTokens(ws: string, c: char, rest: string)
    requires Blank(ws)
    ensures NextToken(ws) == (None, "")
    ensures NextToken(ws + ("[" + rest)) == (Some(OpenBracket), rest)
    ensures NextToken(ws + ("]" + rest)) == (Some(CloseBracket), rest)
    ensures c !in {' ', '\t', '\n', '\r', '\U{000C}', '[', ']', 'x'} && !('0' <= c <= '9') ==>
              NextToken(ws + ([c] + rest)) == (Some(SyntaxError), rest)
  {
    hide TakeHex, TakeDecimal;
    BlankSkipped(ws, "");
    assert ws + "" == ws;
    BlankSkipped(ws, "[" + rest);
    BlankSkipped(ws, "]" + rest);
    if c !in {' ', '\t', '\n', '\r', '\U{000C}'} {
      BlankSkipped(ws, [c] + rest);
    }
    hide SkipWhitespace;
    assert ("[" + rest)[1..] == rest && ("]" + rest)[1..] == rest && ([c] + rest)[1..] == rest;
  }

  /** Bytes in hexadecimal digits of either case, and pairs that are broken off. */
  lemma HexTokens(ws: string, digits: seq<(Spelling.Digit, Spelling.Digit)>, odd: Spelling.Digit, rest: string)
    requires Blank(ws) && Spelling.DigitValid(odd)
    requires forall d :: d in digits ==> Spelling.DigitValid(d.0) && Spelling.DigitValid(d.1)
    ensures Ended(rest) ==>
              NextToken(ws + ("x" + (Spelling.DigitsText(digits) + rest))) ==
              (Some(Bytestring(Spelling.DigitsBytes(digits))), rest)
    ensures Ended(rest) ==>
              NextToken(ws + ("x" + (Spelling.DigitsText(digits) + ([Spelling.DigitText(odd)] + rest)))).0 ==
                Some(SyntaxError)
  {
    hide Spelling.DigitText, Spelling.DigitsText, Spelling.DigitsBytes, FromHex, TakeHex, TakeDecimal, Ended;
    if Ended(rest) {
      HexTextRead(digits, rest);
      OddRead(digits, odd, rest);
      TokenAfterX(ws, Spelling.DigitsText(digits) + rest);
      TokenAfterX(ws, Spelling.DigitsText(digits) + ([Spelling.DigitText(odd)] + rest));
    }
  }

  lemma TokenAfterX(ws: string, s: string)
    requires Blank(ws)
    ensures var (bs, rest) := TakeHex(s);
            NextToken(ws + ("x" + s)) == (Some(if bs.Some? then Bytestring(bs.value) else SyntaxError), rest)
  {
    hide TakeHex, TakeDecimal;
    BlankSkipped(ws, "x" + s);
    assert ("x" + s)[1..] == s;
  }

  lemma {:induction false} OddRead(digits: seq<(Spelling.Digit, Spelling.Digit)>, odd: Spelling.Digit, rest: string)
    requires Ended(rest) && Spelling.DigitValid(odd)
    requires forall d :: d in digits ==> Spelling.DigitValid(d.0) && Spelling.DigitValid(d.1)
    ensures TakeHex(Spelling.DigitsText(digits) + ([Spelling.DigitText(odd)] + rest)).0 == None
  {
    var last := [Spelling.DigitText(odd)] + rest;
    if digits == [] {
      HexRead(odd);
      hide Spelling.DigitText;
      assert "" + last == last;
    } else {
      var d := digits[0];
      assert d in digits;
      OddRead(digits[1..], odd, rest);
      HexPairRead(d.0, d.1, Spelling.DigitsText(digits[1..]) + last);
      hide TakeHex, Spelling.DigitText;
      Associate([Spelling.DigitText(d.0), Spelling.DigitText(d.1)], Spelling.DigitsText(digits[1..]), last);
    }
  }

  lemma TokenOfNumeral(ws: string, d: nat, s: string)
    requires Blank(ws) && d < 10
    ensures var (value, rest) := TakeDecimal(d, s);
            var token := NextToken(ws + ([NUMERALS[d]] + s));
            if value.None? then token.0 == Some(SyntaxError)
            else token == (Some(Bytestring(if value.value == 0 then [0] else CompactBytes(value.value))), rest)
  {
    hide TakeHex, TakeDecimal, CompactBytes;
    NumeralRead(d);
    CutSum([NUMERALS[d]], s, 1);
    assert [] + s == s;
    BlankSkipped(ws, [NUMERALS[d]] + s);
  }

  /** Decimal numbers of any length: the compact bytes of the value, one zero byte for zero, an error past 64 bits. */
  lemma DecimalTokens(ws: string, digits: seq<nat>, rest: string)
    requires Blank(ws) && digits != [] && AreNumerals(digits) && (rest == "" || FromDecimal(rest[0]).None?)
    ensures var value := NumeralsValue(0, digits);
            var (token, after) := NextToken(ws + (NumeralsText(digits) + rest));
            if value >= 0x1_0000_0000_0000_0000 then token == Some(SyntaxError)
            else after == rest && token == Some(Bytestring(if value == 0 then [0] else CompactBytes(value)))
  {
    hide TakeDecimal, NextToken, CompactBytes;
    NumeralsRead(digits[0], digits[1..], rest);
    TokenOfNumeral(ws, digits[0], NumeralsText(digits[1..]) + rest);
    Associate([NUMERALS[digits[0]]], NumeralsText(digits[1..]), rest);
  }

  /** What is printed: a byte in decimal, other atoms in lower-case hexadecimal after an x, pairs in brackets. */
  lemma ShownIs(b: Byte, bs: Bytes, i: nat, l: Noun, r: Noun)
    ensures Shown(Atom([b])) ==
            if b < 10 then [NUMERALS[b]]
            else if b < 100 then [NUMERALS[b / 10], NUMERALS[b % 10]]
            else [NUMERALS[b / 100], NUMERALS[b / 10 % 10], NUMERALS[b % 10]]
    ensures |bs| != 1 ==> |Shown(Atom(bs))| == 1 + 2 * |bs| && Shown(Atom(bs))[0] == 'x'
    ensures |bs| != 1 && i < |bs| ==>
              Shown(Atom(bs))[1 + 2 * i] == Spelling.LOWER[bs[i] / 16] &&
              Shown(Atom(bs))[2 + 2 * i] == Spelling.LOWER[bs[i] % 16]
    ensures Shown(Cell(l, r)) == "[" + Shown(l) + " " + Shown(r) + "]"
  {
    DecimalIs(b);
    HexBytesAre(bs);
    if i < |bs| {
      HexBytesAt(bs, i);
    }
    hide Decimal, HexBytes;
  }

  lemma DecimalIs(b: Byte)
    ensures Decimal(b) ==
            if b < 10 then [NUMERALS[b]]
            else if b < 100 then [NUMERALS[b / 10], NUMERALS[b % 10]]
            else [NUMERALS[b / 100], NUMERALS[b / 10 % 10], NUMERALS[b % 10]]
  {
    assert forall i :: 0 <= i < 10 ==> NUMERALS[i] == '0' + i as char;
    if b >= 100 {
      assert b / 10 / 10 == b / 100;
    }
  }

  lemma {:induction false} HexBytesAre(bs: Bytes)
    ensures |HexBytes(bs)| == 2 * |bs|
  {
    if bs != [] {
      HexBytesAre(bs[1..]);
    }
  }

  lemma {:induction false} HexBytesAt(bs: Bytes, i: nat)
    requires i < |bs|
    ensures |HexBytes(bs)| == 2 * |bs|
    ensures HexBytes(bs)[2 * i] == Spelling.LOWER[bs[i] / 16] && HexBytes(bs)[2 * i + 1] == Spelling.LOWER[bs[i] % 16]
  {
    HexBytesAre(bs);
    if i == 0 {
      assert forall d :: 0 <= d < 10 ==> Spelling.LOWER[d] == '0' + d as char;
      assert forall d :: 10 <= d < 16 ==> Spelling.LOWER[d] == 'a' + (d - 10) as char;
    } else {
      HexBytesAt(bs[1..], i - 1);
      hide HexDigit;
    }
  }

  /** What the parser reads: an atom, or items in brackets. */
  datatype Item = Leaf(bytes: Bytes) | Group(items: seq<Item>)

  function TokensOf(item: Item): seq<Token>
    decreases item, 0
  {
    match item
    case Leaf(bs) => [Bytestring(bs)]
    case Group(items) => [OpenBracket] + TokensOfAll(items) + [CloseBracket]
  }

  function TokensOfAll(items: seq<Item>): seq<Token>
    decreases items, 1
  {
    if items == [] then [] else TokensOf(items[0]) + TokensOfAll(items[1..])
  }

  /** Every group has at least two items. */
  predicate Grouped(item: Item)
    decreases item, 0
  {
    item.Group? ==> |item.items| >= 2 && forall i :: i in item.items ==> Grouped(i)
  }

  /** Groups are pairs nested to the right. */
  function NounOf(item: Item): Noun
    requires Grouped(item)
    decreases item, 0
  {
    match item
    case Leaf(bs) => Atom(bs)
    case Group(items) => PairsOf(items)
  }

  function PairsOf(items: seq<Item>): Noun
    requires items != [] && forall i :: i in items ==> Grouped(i)
    decreases items, 1
  {
    if |items| == 1 then NounOf(items[0]) else Cell(NounOf(items[0]), PairsOf(items[1..]))
  }

  /** The text after these tokens, if a text begins with them. */
  function Following(s: string, tokens: seq<Token>): Option<string>
    decreases |tokens|
  {
    if tokens == [] then Some(s)
    else if NextToken(s).0 == Some(tokens[0]) then Following(NextToken(s).1, tokens[1..])
    else None
  }

  lemma {:induction false} FollowingSum(s: string, a: seq<Token>, b: seq<Token>)
    ensures Following(s, a + b) ==
            match Following(s, a)
            case None => None
            case Some(rest) => Following(rest, b)
    decreases |a|
  {
    hide NextToken;
    if a == [] {
      assert a + b == b;
    } else {
      assert (a + b)[1..] == a[1..] + b;
      FollowingSum(NextToken(s).1, a[1..], b);
    }
  }

  /** The nouns of items, in order. */
  function NounsOf(items: seq<Item>): (r: seq<Noun>)
    requires forall i :: i in items ==> Grouped(i)
    ensures |r| == |items|
  {
    if items == [] then [] else [NounOf(items[0])] + NounsOf(items[1..])
  }

  lemma {:induction false} NestedPairs(items: seq<Item>)
    requires items != [] && forall i :: i in items ==> Grouped(i)
    ensures Nested(NounsOf(items)) == PairsOf(items)
  {
    if |items| > 1 {
      NestedPairs(items[1..]);
      assert NounsOf(items)[1..] == NounsOf(items[1..]);
    }
  }

  /** A text that begins with an item's tokens is parsed as its noun. */
  lemma {:induction false} WrittenParses(s: string, item: Item)
    requires Grouped(item) && Following(s, TokensOf(item)).Some?
    ensures Parse(s) == Some((NounOf(item), Following(s, TokensOf(item)).value))
    decreases item, 0
  {
    hide NextToken;
    match item
    case Leaf(bs) =>
      assert TokensOf(item)[1..] == [];
    case Group(items) =>
      var rest := NextToken(s).1;
      assert TokensOf(item)[1..] == TokensOfAll(items) + [CloseBracket];
      FollowingSum(rest, TokensOfAll(items), [CloseBracket]);
      AllWrittenParse(rest, items);
      NestedPairs(items);
  }

  lemma {:induction false} AllWrittenParse(s: string, items: seq<Item>)
    requires forall i :: i in items ==> Grouped(i)
    requires Following(s, TokensOfAll(items) + [CloseBracket]).Some?
    ensures ParseItems(s) == Some((NounsOf(items), Following(s, TokensOfAll(items) + [CloseBracket]).value))
    decreases items, 1
  {
    hide NextToken;
    if items == [] {
      assert TokensOfAll(items) + [CloseBracket] == [CloseBracket];
      assert [CloseBracket][1..] == [];
    } else {
      var first, more := TokensOf(items[0]), TokensOfAll(items[1..]) + [CloseBracket];
      assert TokensOfAll(items) + [CloseBracket] == first + more;
      FollowingSum(s, first, more);
      assert first[0] != CloseBracket;
      assert items[0] in items;
      WrittenParses(s, items[0]);
      AllWrittenParse(Following(s, first).value, items[1..]);
    }
  }

  /** What is parsed begins with the tokens of an item. */
  lemma {:induction false} ParsedWritten(s: string) returns (item: Item)
    requires Parse(s).Some?
    ensures Grouped(item) && NounOf(item) == Parse(s).value.0
    ensures Following(s, TokensOf(item)) == Some(Parse(s).value.1)
    decreases |s|, 0
  {
    hide NextToken;
    var (token, rest) := NextToken(s);
    if token == Some(OpenBracket) {
      var items := AllParsedWritten(rest);
      NestedPairs(items);
      item := Group(items);
      assert TokensOf(item)[1..] == TokensOfAll(items) + [CloseBracket];
    } else {
      item := Leaf(token.value.bytes);
      assert TokensOf(item)[1..] == [];
    }
  }

  lemma {:induction false} AllParsedWritten(s: string) returns (items: seq<Item>)
    requires ParseItems(s).Some?
    ensures forall i :: i in items ==> Grouped(i)
    ensures NounsOf(items) == ParseItems(s).value.0
    ensures Following(s, TokensOfAll(items) + [CloseBracket]) == Some(ParseItems(s).value.1)
    decreases |s|, 1
  {
    hide NextToken;
    if NextToken(s).0 == Some(CloseBracket) {
      items := [];
      assert TokensOfAll(items) + [CloseBracket] == [CloseBracket];
      assert [CloseBracket][1..] == [];
    } else {
      var first := ParsedWritten(s);
      var rest := Parse(s).value.1;
      var more := AllParsedWritten(rest);
      items := [first] + more;
      assert items[1..] == more;
      assert TokensOfAll(items) + [CloseBracket] == TokensOf(first) + (TokensOfAll(more) + [CloseBracket]);
      FollowingSum(s, TokensOf(first), TokensOfAll(more) + [CloseBracket]);
    }
  }

  /** The prompt reads a noun from a text exactly when the text begins with the tokens of an item that stands for it. */
  lemma ParsesIffWritten(s: string, n: Noun, rest: string)
    ensures Parse(s) == Some((n, rest)) <==>
            exists item :: Grouped(item) && NounOf(item) == n && Following(s, TokensOf(item)) == Some(rest)
  {
    hide Parse, NextToken, TokensOf, NounOf, Grouped, Following;
    if Parse(s) == Some((n, rest)) {
      var item := ParsedWritten(s);
    }
    forall item | Grouped(item) && NounOf(item) == n && Following(s, TokensOf(item)) == Some(rest)
      ensures Parse(s) == Some((n, rest))
    {
      WrittenParses(s, item);
    }
  }
}
