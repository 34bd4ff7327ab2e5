/**
 * The texts that stand for given tokens: literals in hexadecimal or as strings with any mix of escapes, with whitespace
 * and comments anywhere between. Every character is written out here. These texts are exactly the ones the tokenizer
 * accepts, and it reads each as the tokens it stands for.
 */
module Spelling {
  import opened Basics
  import opened Lexing

  /** What a symbol may begin with. */
  predicate Letter(c: char) {
    c in {'a', 'b', 'c', 'd', 'e', 'f', 'g', 'h', 'i', 'j', 'k', 'l', 'm',
          'n', 'o', 'p', 'q', 'r', 's', 't', 'u', 'v', 'w', 'x', 'y', 'z',
          'A', 'B', 'C', 'D', 'E', 'F', 'G', 'H', 'I', 'J', 'K', 'L', 'M',
          'N', 'O', 'P', 'Q', 'R', 'S', 'T', 'U', 'V', 'W', 'X', 'Y', 'Z', '_'}
  }

  /** What else it may go on with. */
  predicate Numeral(c: char) {
    c in {'0', '1', '2', '3', '4', '5', '6', '7', '8', '9'}
  }

  const LOWER: string := "0123456789abcdef"
  const UPPER: string := "0123456789ABCDEF"

  /** A hexadecimal digit, in either case. */
  datatype Digit = Digit(value: nat, upper: bool)

  predicate DigitValid(d: Digit) {
    d.value < 16
  }

  function DigitText(d: Digit): char
    requires DigitValid(d)
  {
    if d.upper then UPPER[d.value] else LOWER[d.value]
  }

  function ByteOf(high: Digit, low: Digit): Byte
    requires DigitValid(high) && DigitValid(low)
  {
    16 * high.value + low.value
  }

  /** A way to write one byte of a string, or something in a string that is passed over. */
  datatype Piece = Plain(c: char) | Short(letter: char) | Hex(high: Digit, low: Digit) | Ignored(c: char)

  predicate PieceValid(p: Piece) {
    match p
    case Plain(c) => ' ' <= c <= '~' && c != '\\' && c != '\"'
    case Short(letter) => letter == 'n' || letter == 'r' || letter == 't' || letter == '\"'
    case Hex(high, low) => DigitValid(high) && DigitValid(low)
    case Ignored(c) => !(' ' <= c <= '~')
  }

  function PieceText(p: Piece): string
    requires PieceValid(p)
  {
    match p
    case Plain(c) => [c]
    case Short(letter) => ['\\', letter]
    case Hex(high, low) => ['\\', 'x', DigitText(high), DigitText(low)]
    case Ignored(c) => [c]
  }

  function PieceBytes(p: Piece): Bytes
    requires PieceValid(p)
  {
    match p
    case Plain(c) => [c as int]
    case Short(letter) => [if letter == 'n' then 10 else if letter == 'r' then 13 else if letter == 't' then 9 else 34]
    case Hex(high, low) => [ByteOf(high, low)]
    case Ignored(_) => []
  }

  /** An element of a program's text. */
  datatype Element =
    | Bracket(c: char)
    | Symbol(name: string)
    | HexLiteral(digits: seq<(Digit, Digit)>)
    | StringLiteral(pieces: seq<Piece>)
    | Space(c: char)
    | Comment(words: string)
    | LastComment(words: string)

  predicate ValidSymbol(name: string) {
    name != "" && Letter(name[0]) && forall i :: 0 <= i < |name| ==> Letter(name[i]) || Numeral(name[i])
  }

  predicate Valid(e: Element) {
    match e
    case Bracket(c) => c == '(' || c == ')' || c == '[' || c == ']'
    case Symbol(name) => ValidSymbol(name)
    case HexLiteral(digits) => forall d :: d in digits ==> DigitValid(d.0) && DigitValid(d.1)
    case StringLiteral(pieces) => forall p :: p in pieces ==> PieceValid(p)
    case Space(c) => c == ' ' || c == '\t' || c == '\r' || c == '\n'
    case Comment(words) => '\n' !in words
    case LastComment(words) => '\n' !in words
  }

  function DigitsText(digits: seq<(Digit, Digit)>): string
    requires forall d :: d in digits ==> DigitValid(d.0) && DigitValid(d.1)
  {
    if digits == [] then "" else [DigitText(digits[0].0), DigitText(digits[0].1)] + DigitsText(digits[1..])
  }

  function DigitsBytes(digits: seq<(Digit, Digit)>): Bytes
    requires forall d :: d in digits ==> DigitValid(d.0) && DigitValid(d.1)
  {
    if digits == [] then [] else [ByteOf(digits[0].0, digits[0].1)] + DigitsBytes(digits[1..])
  }

  function PiecesText(pieces: seq<Piece>): string
    requires forall p :: p in pieces ==> PieceValid(p)
  {
    if pieces == [] then "" else PieceText(pieces[0]) + PiecesText(pieces[1..])
  }

  function PiecesBytes(pieces: seq<Piece>): Bytes
    requires forall p :: p in pieces ==> PieceValid(p)
  {
    if pieces == [] then [] else PieceBytes(pieces[0]) + PiecesBytes(pieces[1..])
  }

  function Text(e: Element): string
    requires Valid(e)
  {
    match e
    case Bracket(c) => [c]
    case Symbol(name) => name
    case HexLiteral(digits) => "#" + DigitsText(digits)
    case StringLiteral(pieces) => "\"" + PiecesText(pieces) + "\""
    case Space(c) => [c]
    case Comment(words) => ";" + words + "\n"
    case LastComment(words) => ";" + words
  }

  /** The token an element stands for. Whitespace and comments stand for none. */
  function Meant(e: Element): Option<Token>
    requires Valid(e)
  {
    match e
    case Bracket(c) =>
      Some(if c == '(' then OpenParen
           else if c == ')' then CloseParen
           else if c == '[' then OpenBracket
           else CloseBracket)
    case Symbol(name) => Some(Name(name))
    case HexLiteral(digits) => Some(Bytestring(DigitsBytes(digits)))
    case StringLiteral(pieces) => Some(Bytestring(PiecesBytes(pieces)))
    case Space(_) => None
    case Comment(_) => None
    case LastComment(_) => None
  }

  function TextAll(es: seq<Element>): string
    requires forall e :: e in es ==> Valid(e)
  {
    if es == [] then "" else Text(es[0]) + TextAll(es[1..])
  }

  function MeantAll(es: seq<Element>): seq<Token>
    requires forall e :: e in es ==> Valid(e)
  {
    if es == [] then [] else Listed(Meant(es[0])) + MeantAll(es[1..])
  }

  /** Something stands between a symbol and a symbol or literal before it. Nothing follows a comment without an end. */
  predicate MayFollow(next: Element, e: Element) {
    (e.Symbol? || e.HexLiteral? ==> !next.Symbol?) && !e.LastComment?
  }

  predicate WellSpaced(es: seq<Element>) {
    (forall e :: e in es ==> Valid(e)) && forall i :: 0 <= i < |es| - 1 ==> MayFollow(es[i + 1], es[i])
  }

  /** The tokenizer's letters are the ones listed. */
  lemma LetterIs(c: char)
    ensures IsSymbolInitial(c) <==> Letter(c)
    ensures IsSymbolContinuation(c) <==> Letter(c) || Numeral(c)
  {
  }

  /** The tokenizer reads every hexadecimal digit, in either case, as its value. */
  lemma DigitRead(d: Digit)
    requires DigitValid(d)
    ensures HexValue(DigitText(d)) == Some(d.value)
    ensures IsSymbolContinuation(DigitText(d))
  {
    assert forall i :: 0 <= i < 10 ==> LOWER[i] == UPPER[i] == '0' + i as char;
    assert forall i :: 10 <= i < 16 ==> LOWER[i] == 'a' + (i - 10) as char && UPPER[i] == 'A' + (i - 10) as char;
  }

  /** And reads no other character as one. */
  lemma DigitIs(c: char) returns (d: Digit)
    requires HexValue(c).Some?
    ensures DigitValid(d) && DigitText(d) == c && d.value == HexValue(c).value
  {
    d := Digit(HexValue(c).value, 'A' <= c <= 'F');
    assert forall i :: 0 <= i < 10 ==> LOWER[i] == UPPER[i] == '0' + i as char;
    assert forall i :: 10 <= i < 16 ==> LOWER[i] == 'a' + (i - 10) as char && UPPER[i] == 'A' + (i - 10) as char;
  }

  /** Text that does not go on with a symbol or a literal. */
  predicate Ended(s: string) {
    s == "" || !IsSymbolContinuation(s[0])
  }

  lemma PairRead(high: Digit, low: Digit, more: string)
    requires DigitValid(high) && DigitValid(low) && TakeHex(more).Ok?
    ensures TakeHex([DigitText(high), DigitText(low)] + more) ==
            Ok(([ByteOf(high, low)] + TakeHex(more).value.0, TakeHex(more).value.1))
  {
    hide HexValue, DigitText;
    DigitRead(high);
    DigitRead(low);
    var pair := [DigitText(high), DigitText(low)];
    CutSum(pair, more, 2);
    assert (pair + more)[0] == pair[0] && (pair + more)[1] == pair[1];
    assert [] + more == more;
  }

  lemma {:induction false} DigitsRead(digits: seq<(Digit, Digit)>, rest: string)
    requires Ended(rest) && forall d :: d in digits ==> DigitValid(d.0) && DigitValid(d.1)
    ensures TakeHex(DigitsText(digits) + rest) == Ok((DigitsBytes(digits), rest))
  {
    if digits == [] {
      assert "" + rest == rest;
    } else {
      hide DigitText, TakeHex;
      var d := digits[0];
      assert d in digits;
      DigitsRead(digits[1..], rest);
      PairRead(d.0, d.1, DigitsText(digits[1..]) + rest);
      Associate([DigitText(d.0), DigitText(d.1)], DigitsText(digits[1..]), rest);
    }
  }

  lemma {:induction false} PiecesRead(pieces: seq<Piece>, rest: string)
    requires forall p :: p in pieces ==> PieceValid(p)
    ensures TakeString(PiecesText(pieces) + ("\"" + rest)) == Ok((PiecesBytes(pieces), rest))
  {
    if pieces == [] {
      assert ("\"" + rest)[1..] == rest;
      assert "" + ("\"" + rest) == "\"" + rest;
    } else {
      hide TakeString, PieceText, PieceBytes;
      var p := pieces[0];
      assert p in pieces;
      var more := PiecesText(pieces[1..]) + ("\"" + rest);
      Associate(PieceText(p), PiecesText(pieces[1..]), "\"" + rest);
      PiecesRead(pieces[1..], rest);
      PieceRead(p, more);
    }
  }

  lemma PieceRead(p: Piece, more: string)
    requires PieceValid(p) && TakeString(more).Ok?
    ensures TakeString(PieceText(p) + more) == Ok((PieceBytes(p) + TakeString(more).value.0, TakeString(more).value.1))
  {
    hide TakeString, DigitText;
    match p
    case Plain(c) => PlainRead(c, more);
    case Ignored(c) =>
      PlainRead(c, more);
      assert [] + TakeString(more).value.0 == TakeString(more).value.0;
    case Short(letter) =>
      assert ([letter] + more)[0] == letter;
      EscapeRead([letter], PieceBytes(p)[0], more);
      assert PieceText(p) == ['\\'] + [letter];
    case Hex(high, low) =>
      HexRead(high, low, more);
  }

  lemma HexRead(high: Digit, low: Digit, more: string)
    requires DigitValid(high) && DigitValid(low) && TakeString(more).Ok?
    ensures TakeString(['\\', 'x', DigitText(high), DigitText(low)] + more) ==
            Ok(([ByteOf(high, low)] + TakeString(more).value.0, TakeString(more).value.1))
  {
    hide TakeString, HexValue, DigitText;
    DigitRead(high);
    DigitRead(low);
    var code := ['x', DigitText(high), DigitText(low)];
    var s := code + more;
    assert s[0] == 'x' && s[1] == code[1] && s[2] == code[2];
    EscapeRead(code, ByteOf(high, low), more);
    assert ['\\', 'x', DigitText(high), DigitText(low)] == ['\\'] + code;
  }

  lemma PlainRead(c: char, more: string)
    requires c != '\\' && c != '\"' && TakeString(more).Ok?
    ensures
      var bs := if AsStringChar(c).Some? then [AsStringChar(c).value] else [];
      TakeString([c] + more) == Ok((bs + TakeString(more).value.0, TakeString(more).value.1))
  {
    assert ([c] + more)[1..] == more;
    hide AsStringChar;
  }

  lemma EscapeRead(code: string, b: Byte, more: string)
    requires code != "" && Escape(code + more) == Ok((b, |code|)) && TakeString(more).Ok?
    ensures TakeString(['\\'] + code + more) == Ok(([b] + TakeString(more).value.0, TakeString(more).value.1))
  {
    hide Escape;
    Associate(['\\'], code, more);
    CutSum(['\\'], code + more, 1);
    CutSum(['\\'] + code, more, 1 + |code|);
    assert [] + (code + more) == code + more;
    assert [] + more == more;
  }

  lemma {:induction false} SymbolRead(name: string, rest: string)
    requires Ended(rest) && forall i :: 0 <= i < |name| ==> IsSymbolContinuation(name[i])
    ensures TakeSymbol(name + rest) == (name, rest)
  {
    hide IsSymbolContinuation;
    if name == "" {
      assert "" + rest == rest;
    } else {
      assert (name + rest)[1..] == name[1..] + rest;
      SymbolRead(name[1..], rest);
      HeadAndTail(name);
    }
  }

  lemma {:induction false} LastCommentRead(words: string)
    requires '\n' !in words
    ensures SkipComment(words) == ""
  {
    if words != "" {
      LastCommentRead(words[1..]);
    }
  }

  lemma {:induction false} CommentRead(words: string, rest: string)
    requires '\n' !in words
    ensures SkipComment(words + ("\n" + rest)) == rest
  {
    var s := words + ("\n" + rest);
    if words == "" {
      assert s == "\n" + rest;
      assert s[1..] == rest;
    } else {
      assert s[1..] == words[1..] + ("\n" + rest);
      CommentRead(words[1..], rest);
    }
  }

  /** An element's text is read as its token. */
  lemma ElementRead(e: Element, rest: string)
    requires Valid(e) && (e.Symbol? || e.HexLiteral? ==> Ended(rest)) && (e.LastComment? ==> rest == "")
    ensures Text(e) != "" && Lex(Text(e) + rest) == Ok((Meant(e), rest))
  {
    match e
    case Symbol(name) => SymbolElementRead(name, rest);
    case HexLiteral(digits) => HexElementRead(digits, rest);
    case StringLiteral(pieces) => StringElementRead(pieces, rest);
    case Comment(words) => CommentElementRead(words, rest);
    case LastComment(words) => LastCommentElementRead(words);
    case _ =>
      hide TakeHex, TakeString, TakeSymbol, SkipComment;
      assert (Text(e) + rest)[1..] == rest;
  }

  lemma LexSymbol(s: string)
    requires s != "" && IsSymbolInitial(s[0])
    ensures Lex(s) == Ok((Some(Name([s[0]] + TakeSymbol(s[1..]).0)), TakeSymbol(s[1..]).1))
  {
    hide TakeHex, TakeString, TakeSymbol, SkipComment;
  }

  lemma SymbolElementRead(name: string, rest: string)
    requires ValidSymbol(name) && Ended(rest)
    ensures Lex(name + rest) == Ok((Some(Name(name)), rest))
  {
    hide Letter, Numeral, TakeSymbol, Lex, IsSymbolInitial, IsSymbolContinuation;
    LetterIs(name[0]);
    forall i | 0 <= i < |name|
      ensures IsSymbolContinuation(name[i])
    {
      LetterIs(name[i]);
    }
    SymbolRead(name[1..], rest);
    CutSum(name, rest, 1);
    assert (name + rest)[0] == name[0];
    LexSymbol(name + rest);
    HeadAndTail(name);
  }

  lemma HexElementRead(digits: seq<(Digit, Digit)>, rest: string)
    requires Valid(HexLiteral(digits)) && Ended(rest)
    ensures Lex(Text(HexLiteral(digits)) + rest) == Ok((Some(Bytestring(DigitsBytes(digits))), rest))
  {
    DigitsRead(digits, rest);
    hide TakeHex, TakeString, TakeSymbol, SkipComment, DigitsText, DigitsBytes;
    Associate("#", DigitsText(digits), rest);
    CutSum("#", DigitsText(digits) + rest, 1);
    assert "" + (DigitsText(digits) + rest) == DigitsText(digits) + rest;
  }

  lemma StringElementRead(pieces: seq<Piece>, rest: string)
    requires Valid(StringLiteral(pieces))
    ensures Lex(Text(StringLiteral(pieces)) + rest) == Ok((Some(Bytestring(PiecesBytes(pieces))), rest))
  {
    PiecesRead(pieces, rest);
    hide TakeHex, TakeString, TakeSymbol, SkipComment, PiecesText, PiecesBytes, PieceValid;
    Enclosed('\"', PiecesText(pieces), "\"", rest);
  }

  lemma Enclosed(open: char, text: string, close: string, rest: string)
    ensures ([open] + text + close + rest)[0] == open && ([open] + text + close + rest)[1..] == text + (close + rest)
  {
  }

  lemma CommentElementRead(words: string, rest: string)
    requires '\n' !in words
    ensures Lex(Text(Comment(words)) + rest) == Ok((None, rest))
  {
    CommentRead(words, rest);
    hide TakeHex, TakeString, TakeSymbol, SkipComment;
    Enclosed(';', words, "\n", rest);
  }

  lemma LastCommentElementRead(words: string)
    requires '\n' !in words
    ensures Lex(Text(LastComment(words)) + "") == Ok((None, ""))
  {
    LastCommentRead(words);
    hide TakeHex, TakeString, TakeSymbol, SkipComment;
    assert Text(LastComment(words)) + "" == [';'] + words;
  }

  /** What does not start with a symbol ends whatever is before it. */
  lemma EndedBy(es: seq<Element>)
    requires WellSpaced(es) && (es != [] ==> !es[0].Symbol?)
    ensures Ended(TextAll(es))
  {
    if es != [] {
      assert es[0] in es;
      assert TextAll(es)[0] == Text(es[0])[0];
      hide Letter, Numeral;
    }
  }

  lemma RestSpaced(es: seq<Element>)
    requires WellSpaced(es) && es != []
    ensures Valid(es[0]) && WellSpaced(es[1..]) && (es[1..] != [] ==> MayFollow(es[1..][0], es[0]))
  {
    assert es[0] in es;
    var rest := es[1..];
    forall i | 0 <= i < |rest| - 1
      ensures MayFollow(rest[i + 1], rest[i])
    {
      assert rest[i] == es[i + 1] && rest[i + 1] == es[i + 2];
    }
    assert rest != [] ==> MayFollow(es[1], es[0]);
  }

  /** However it is spelled and laid out, a text is read as the tokens it stands for. */
  lemma {:induction false} TokensOfText(es: seq<Element>)
    requires WellSpaced(es)
    ensures Tokens(TextAll(es)) == Ok(MeantAll(es))
  {
    if es != [] {
      hide Valid, Lex, Text, Meant, WellSpaced, Ended;
      var e, rest := es[0], es[1..];
      RestSpaced(es);
      if e.Symbol? || e.HexLiteral? {
        EndedBy(rest);
      }
      WellSpacedValid(es);
      WellSpacedValid(rest);
      ElementRead(e, TextAll(rest));
      TextSplits(es);
      TokensOfText(rest);
    }
  }

  lemma WellSpacedValid(es: seq<Element>)
    requires WellSpaced(es)
    ensures forall e :: e in es ==> Valid(e)
  {
  }

  lemma TextSplits(es: seq<Element>)
    requires es != [] && (forall e :: e in es ==> Valid(e)) && Text(es[0]) != ""
    ensures TextAll(es) == Text(es[0]) + TextAll(es[1..]) && TextAll(es) != ""
  {
    hide Valid, Text;
  }

  /** A literal that is read was spelled in pairs of digits. */
  lemma {:induction false} HexSpelled(s: string) returns (digits: seq<(Digit, Digit)>)
    requires TakeHex(s).Ok?
    ensures forall d :: d in digits ==> DigitValid(d.0) && DigitValid(d.1)
    ensures var (bs, rest) := TakeHex(s).value; s == DigitsText(digits) + rest && Ended(rest)
    decreases |s|
  {
    hide HexValue, DigitText, TakeHex, IsSymbolContinuation, Ended;
    if !IsSymbolContinuation(At(s, 0)) {
      digits := [];
      HexEnds(s);
    } else {
      HexGoesOn(s);
      var high := DigitIs(s[0]);
      var low := DigitIs(s[1]);
      var more := HexSpelled(s[2..]);
      digits := [(high, low)] + more;
      assert digits[1..] == more;
      Associate([s[0], s[1]], DigitsText(more), TakeHex(s).value.1);
      assert s == [s[0], s[1]] + s[2..];
    }
  }

  lemma HexEnds(s: string)
    requires !IsSymbolContinuation(At(s, 0))
    ensures TakeHex(s) == Ok(([], s)) && Ended(s) && s == "" + s
  {
  }

  lemma HexGoesOn(s: string)
    requires TakeHex(s).Ok? && IsSymbolContinuation(At(s, 0))
    ensures |s| >= 2 && HexValue(s[0]).Some? && HexValue(s[1]).Some?
    ensures TakeHex(s[2..]).Ok? && TakeHex(s[2..]).value.1 == TakeHex(s).value.1
  {
    NullIsNoDigit();
    hide HexValue, IsSymbolContinuation;
  }

  lemma NullIsNoDigit()
    ensures HexValue('\0').None? && !IsSymbolContinuation('\0')
  {
  }

  /** An escape that is read was spelled as one of the five. */
  lemma EscapeSpelled(s: string) returns (p: Piece)
    requires Escape(s).Ok?
    ensures var (b, length) := Escape(s).value;
            PieceValid(p) && length <= |s| && PieceText(p) == ['\\'] + s[..length]
  {
    NullIsNoDigit();
    if s[0] == 'x' {
      hide HexValue, DigitText;
      var high := DigitIs(At(s, 1));
      var low := DigitIs(At(s, 2));
      p := Hex(high, low);
      assert s[..3] == ['x', s[1], s[2]];
    } else {
      p := Short(s[0]);
      assert s[..1] == [s[0]];
    }
  }

  /** What begins a string that is read, and does not end it, was spelled as a piece. */
  lemma PieceSpelled(s: string) returns (p: Piece, length: nat)
    requires TakeString(s).Ok? && s[0] != '\"'
    ensures PieceValid(p) && 1 <= length <= |s| && PieceText(p) == s[..length]
    ensures TakeString(s[length..]).Ok? && TakeString(s[length..]).value.1 == TakeString(s).value.1
  {
    hide Escape;
    if s[0] == '\\' {
      p := EscapeSpelled(s[1..]);
      length := 1 + Escape(s[1..]).value.1;
      hide PieceValid, PieceText;
      assert s[..length] == ['\\'] + s[1..][..length - 1];
    } else {
      p, length := if AsStringChar(s[0]).Some? then Plain(s[0]) else Ignored(s[0]), 1;
    }
  }

  /** A string that is read was spelled in pieces, up to a quotation mark. */
  lemma {:induction false} StringSpelled(s: string) returns (pieces: seq<Piece>)
    requires TakeString(s).Ok?
    ensures forall p :: p in pieces ==> PieceValid(p)
    ensures s == PiecesText(pieces) + ("\"" + TakeString(s).value.1)
    decreases |s|
  {
    hide PieceText, PieceValid;
    var rest := TakeString(s).value.1;
    if s[0] == '\"' {
      pieces := [];
      assert "" + ("\"" + rest) == "\"" + rest;
    } else {
      var p, length := PieceSpelled(s);
      hide TakeString;
      var more := StringSpelled(s[length..]);
      pieces := [p] + more;
      assert pieces[1..] == more;
      Associate(PieceText(p), PiecesText(more), "\"" + rest);
      assert s == s[..length] + s[length..];
    }
  }

  lemma {:induction false} CommentSpelled(s: string) returns (words: string, ended: bool)
    ensures '\n' !in words
    ensures if ended then s == words + ("\n" + SkipComment(s)) else s == words && SkipComment(s) == ""
    decreases |s|
  {
    words, ended := "", false;
    if s != "" {
      HeadAndTail(s);
      if s[0] == '\n' {
        ended := true;
      } else {
        words, ended := CommentSpelled(s[1..]);
        Associate([s[0]], words, "\n" + SkipComment(s));
        words := [s[0]] + words;
      }
    }
  }

  lemma {:induction false} SymbolSpelled(s: string)
    ensures var (name, rest) := TakeSymbol(s);
            s == name + rest && Ended(rest) && forall i :: 0 <= i < |name| ==> IsSymbolContinuation(name[i])
    decreases |s|
  {
    hide IsSymbolContinuation;
    if s != "" && IsSymbolContinuation(s[0]) {
      SymbolSpelled(s[1..]);
      HeadAndTail(s);
    }
  }

  /** What is read at the beginning of a text is an element, and after a symbol or literal no symbol follows. */
  lemma ElementSpelled(s: string) returns (e: Element)
    requires s != "" && Lex(s).Ok?
    ensures Valid(e) && s == Text(e) + Lex(s).value.1
    ensures e.Symbol? || e.HexLiteral? ==> Ended(Lex(s).value.1)
    ensures e.LastComment? ==> Lex(s).value.1 == ""
  {
    if s[0] == '#' {
      e := HexElementSpelled(s);
    } else if s[0] == '\"' {
      e := StringElementSpelled(s);
    } else if s[0] == ';' {
      e := CommentElementSpelled(s);
    } else if IsSymbolInitial(s[0]) && !IsSpace(s[0]) {
      e := SymbolElementSpelled(s);
    } else {
      HeadAndTail(s);
      hide TakeHex, TakeString, TakeSymbol, SkipComment;
      e := if IsSpace(s[0]) then Space(s[0]) else Bracket(s[0]);
    }
    hide *;
  }

  lemma HexElementSpelled(s: string) returns (e: Element)
    requires s != "" && s[0] == '#' && Lex(s).Ok?
    ensures e.HexLiteral? && Valid(e) && s == Text(e) + Lex(s).value.1 && Ended(Lex(s).value.1)
  {
    hide TakeHex, Ended, DigitValid;
    var digits := HexSpelled(s[1..]);
    HeadAndTail(s);
    e := HexLiteral(digits);
    Associate("#", DigitsText(digits), Lex(s).value.1);
  }

  lemma StringElementSpelled(s: string) returns (e: Element)
    requires s != "" && s[0] == '\"' && Lex(s).Ok?
    ensures e.StringLiteral? && Valid(e) && s == Text(e) + Lex(s).value.1
  {
    hide TakeString, PieceValid;
    var pieces := StringSpelled(s[1..]);
    HeadAndTail(s);
    e := StringLiteral(pieces);
    Quoted(PiecesText(pieces), Lex(s).value.1);
  }

  lemma Quoted(text: string, rest: string)
    ensures ['\"'] + (text + ("\"" + rest)) == "\"" + text + "\"" + rest
  {
  }

  lemma CommentElementSpelled(s: string) returns (e: Element)
    requires s != "" && s[0] == ';'
    ensures Lex(s) == Ok((None, SkipComment(s[1..])))
    ensures Valid(e) && s == Text(e) + SkipComment(s[1..])
    ensures !e.Symbol? && !e.HexLiteral? && (e.LastComment? ==> SkipComment(s[1..]) == "")
  {
    HeadAndTail(s);
    var words, ended := CommentSpelled(s[1..]);
    e := if ended then Comment(words) else LastComment(words);
    var rest := SkipComment(s[1..]);
    hide SkipComment;
    assert ";" + (words + ("\n" + rest)) == ";" + words + "\n" + rest;
  }

  lemma SymbolElementSpelled(s: string) returns (e: Element)
    requires s != "" && IsSymbolInitial(s[0])
    ensures Lex(s).Ok? && Lex(s).value.1 == TakeSymbol(s[1..]).1
    ensures e.Symbol? && Valid(e) && s == Text(e) + TakeSymbol(s[1..]).1 && Ended(TakeSymbol(s[1..]).1)
  {
    hide Letter, Numeral, TakeSymbol, IsSymbolInitial, IsSymbolContinuation, Ended, Lex;
    LexSymbol(s);
    HeadAndTail(s);
    SymbolSpelled(s[1..]);
    var (more, rest) := TakeSymbol(s[1..]);
    var name := [s[0]] + more;
    e := Symbol(name);
    Associate([s[0]], more, rest);
    forall i | 0 <= i < |name|
      ensures Letter(name[i]) || Numeral(name[i])
    {
      LetterIs(name[i]);
    }
    LetterIs(s[0]);
  }

  /** Every text that the tokenizer accepts is spelled in elements. */
  lemma {:induction false} EveryTextSpelled(s: string) returns (es: seq<Element>)
    requires Tokens(s).Ok?
    ensures WellSpaced(es) && TextAll(es) == s
    decreases |s|
  {
    hide Lex, Text, Valid;
    if s == "" {
      es := [];
    } else {
      var e := ElementSpelled(s);
      var rest := Lex(s).value.1;
      var more := EveryTextSpelled(rest);
      es := [e] + more;
      assert es[1..] == more;
      FollowsSpelled(e, more, rest);
      forall i | 0 <= i < |es| - 1
        ensures MayFollow(es[i + 1], es[i])
      {
        if i > 0 {
          assert es[i] == more[i - 1] && es[i + 1] == more[i];
        }
      }
    }
  }

  lemma FollowsSpelled(e: Element, more: seq<Element>, rest: string)
    requires WellSpaced(more) && TextAll(more) == rest
    requires (e.Symbol? || e.HexLiteral? ==> Ended(rest)) && (e.LastComment? ==> rest == "")
    ensures more != [] ==> MayFollow(more[0], e)
  {
    if more != [] {
      assert Valid(more[0]);
      ElementNotEmpty(more[0]);
      hide Letter, Numeral;
      assert rest[0] == Text(more[0])[0];
      if more[0].Symbol? {
        LetterIs(rest[0]);
      }
    }
  }

  lemma ElementNotEmpty(e: Element)
    requires Valid(e)
    ensures Text(e) != ""
  {
  }

  /** A text gives tokens if and only if it is spelled in elements that mean them. */
  lemma TokensIffSpelled(s: string, tokens: seq<Token>)
    ensures Tokens(s) == Ok(tokens) <==> exists es :: WellSpaced(es) && TextAll(es) == s && MeantAll(es) == tokens
  {
    if Tokens(s) == Ok(tokens) {
      var es := EveryTextSpelled(s);
      TokensOfText(es);
    } else if exists es :: WellSpaced(es) && TextAll(es) == s && MeantAll(es) == tokens {
      var es :| WellSpaced(es) && TextAll(es) == s && MeantAll(es) == tokens;
      TokensOfText(es);
    }
  }

  /** White space goes anywhere between two elements. */
  lemma SpaceAnywhere(a: seq<Element>, c: char, b: seq<Element>)
    requires WellSpaced(a + b) && (a == [] || !a[|a| - 1].LastComment?)
    requires c == ' ' || c == '\t' || c == '\r' || c == '\n'
    ensures WellSpaced(a + [Space(c)] + b) && Tokens(TextAll(a + [Space(c)] + b)) == Tokens(TextAll(a + b))
  {
    var es := a + [Space(c)] + b;
    forall i | 0 <= i < |es| - 1
      ensures MayFollow(es[i + 1], es[i])
    {
      if i + 1 < |a| {
        assert es[i] == (a + b)[i] && es[i + 1] == (a + b)[i + 1];
      } else if i > |a| {
        assert es[i] == (a + b)[i - 1] && es[i + 1] == (a + b)[i];
      }
    }
    SpaceMeansNothing(a, c, b);
    TokensOfText(es);
    TokensOfText(a + b);
  }

  lemma {:induction false} SpaceMeansNothing(a: seq<Element>, c: char, b: seq<Element>)
    requires (forall e :: e in a + b ==> Valid(e)) && Valid(Space(c))
    requires forall e :: e in a + [Space(c)] + b ==> Valid(e)
    ensures MeantAll(a + [Space(c)] + b) == MeantAll(a + b)
  {
    hide Valid, Meant;
    var es := a + [Space(c)] + b;
    if a == [] {
      assert es[0] == Space(c) && es[1..] == b && a + b == b;
      SpaceMeans(c);
    } else {
      assert es[1..] == a[1..] + [Space(c)] + b && (a + b)[1..] == a[1..] + b;
      SpaceMeansNothing(a[1..], c, b);
    }
  }

  lemma SpaceMeans(c: char)
    requires Valid(Space(c))
    ensures Meant(Space(c)) == None
  {
  }
}
