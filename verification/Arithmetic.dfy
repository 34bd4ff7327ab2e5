/**
 * Arithmetic on atoms of any length (`vm/src/math.rs`). Atoms are big-endian here, so operands of unequal
 * length are aligned at their last bytes; only `xor` aligns them at their first.
 */
module Arithmetic {
  import opened Basics
  import opened Nouns

  /** The last `len` big-endian bytes of a number. */
  function BeBytes(v: nat, len: nat): (r: Bytes)
    ensures |r| == len
  {
    if len == 0 then [] else BeBytes(v / 256, len - 1) + [v % 256]
  }

  function AddBytes(x: Bytes, y: Bytes): Bytes {
    BeBytes(BeValue(x) + BeValue(y), Max(|x|, |y|))
  }

  function InvertBytes(x: Bytes): (r: Bytes)
    ensures |r| == |x|
  {
    seq(|x|, i requires 0 <= i < |x| => 255 - x[i])
  }

  function XorByte(a: Byte, b: Byte): Byte {
    ((a as bv8) ^ (b as bv8)) as int
  }

  function XorBytes(x: Bytes, y: Bytes): (r: Bytes)
    ensures |r| == Max(|x|, |y|)
  {
    seq(Max(|x|, |y|), i requires 0 <= i < Max(|x|, |y|) =>
      if i < |x| && i < |y| then XorByte(x[i], y[i]) else if i < |x| then x[i] else y[i])
  }

  lemma {:induction false} BeBytesValue(v: nat, len: nat)
    ensures BeValue(BeBytes(v, len)) == v % Pow256(len)
  {
    if len > 0 {
      BeBytesValue(v / 256, len - 1);
      assert BeBytes(v, len)[..len - 1] == BeBytes(v / 256, len - 1);
      SplitLowByte(v, Pow256(len - 1));
    }
  }

  lemma SplitLowByte(v: nat, p: nat)
    requires p >= 1
    ensures v % (256 * p) == 256 * (v / 256 % p) + v % 256
  {
    var q, r := v / 256 / p, v / 256 % p;
    assert v / 256 == q * p + r;
    assert q * (256 * p) == 256 * (q * p);
    DivMod(v, q, 256 * r + v % 256, 256 * p);
  }

  lemma {:induction false} BeValueCons(b: Byte, bs: Bytes)
    ensures BeValue([b] + bs) == b * Pow256(|bs|) + BeValue(bs)
  {
    if bs == [] {
      assert [b][..0] == [];
      assert [b] + bs == [b];
    } else {
      BeValueCons(b, bs[..|bs| - 1]);
      assert ([b] + bs)[..|bs|] == [b] + bs[..|bs| - 1];
      assert 256 * (b * Pow256(|bs| - 1)) == b * Pow256(|bs|);
    }
  }

  /** The bytes and carry produced so far are the sum of the bytes consumed so far. */
  ghost predicate Summed(r: Bytes, carry: nat, x: Bytes, y: Bytes) {
    BeValue(r) + carry * Pow256(|r|) == BeValue(x) + BeValue(y)
  }

  lemma SumPair(r: Bytes, carry: nat, x: Bytes, y: Bytes, a: Byte, b: Byte)
    requires |r| == |x| == |y| && Summed(r, carry, x, y)
    ensures Summed([(a + b + carry) % 256] + r, (a + b + carry) / 256, [a] + x, [b] + y)
  {
    var z := a + b + carry;
    BeValueCons(z % 256, r);
    BeValueCons(a, x);
    BeValueCons(b, y);
    CarryStep(Pow256(|r|), a, b, carry, z);
  }

  lemma SumSingle(r: Bytes, carry: nat, x: Bytes, y: Bytes, a: Byte)
    requires |r| == |x| && Summed(r, carry, x, y)
    ensures Summed([(a + carry) % 256] + r, (a + carry) / 256, [a] + x, y)
  {
    var z := a + carry;
    BeValueCons(z % 256, r);
    BeValueCons(a, x);
    CarryStep(Pow256(|r|), a, 0, carry, z);
  }

  lemma CarryStep(p: nat, a: Byte, b: Byte, carry: nat, z: nat)
    requires z == a + b + carry
    ensures z % 256 * p + z / 256 * (256 * p) == a * p + b * p + carry * p
  {
    assert z == z / 256 * 256 + z % 256;
    Distribute(z / 256 * 256, z % 256, p);
    assert z / 256 * (256 * p) == z / 256 * 256 * p;
    Distribute(a + b, carry, p);
    Distribute(a, b, p);
  }

  lemma SumNone(r: Bytes, x: Bytes, y: Bytes)
    requires r == x == y == []
    ensures Summed(r, 0, x, y)
  {
  }

  /** `add` in place: the sum modulo 256 to the longer length. */
  method Add(x: Bytes, y: Bytes) returns (r: Bytes)
    ensures r == AddBytes(x, y)
  {
    hide BeValue, Pow256, BeBytes;
    var long, short := y, x;
    if |x| > |y| {
      long, short := x, y;
    }
    var n, m := |long|, |short|;
    var ret := new Byte[n](i requires 0 <= i < n => long[i]);
    var carry := AddPairs(ret, long, short);
    carry := AddCarry(ret, long, short, carry);
    r := ret[..];
    SumIsAdd(long, short, r, carry);
    assert BeValue(x) + BeValue(y) == BeValue(long) + BeValue(short);
  }

  /** The loop over the bytes that both operands have. */
  method AddPairs(ret: array<Byte>, ghost long: Bytes, short: Bytes) returns (carry: nat)
    requires ret[..] == long && |short| <= |long|
    modifies ret
    ensures var rest := |long| - |short|;
            carry <= 1 && ret[..rest] == long[..rest] && Summed(ret[rest..], carry, long[rest..], short)
  {
    hide BeValue, Pow256;
    var n, m := ret.Length, |short|;
    carry := 0;
    SumNone(ret[n..], long[n..], short[m..]);
    for k := 0 to m
      invariant carry <= 1
      invariant forall i :: 0 <= i < n - k ==> ret[i] == long[i]
      invariant Summed(ret[n - k..], carry, long[n - k..], short[m - k..])
    {
      var at := n - 1 - k;
      var z := ret[at] + short[m - 1 - k] + carry;
      ghost var before := ret[n - k..];
      SumPair(before, carry, long[n - k..], short[m - k..], long[at], short[m - 1 - k]);
      ret[at] := z % 256;
      assert ret[n - k..] == before;
      assert ret[at..] == [z % 256] + before;
      assert long[at..] == [long[at]] + long[n - k..];
      assert short[m - 1 - k..] == [short[m - 1 - k]] + short[m - k..];
      carry := z / 256;
    }
    assert short[0..] == short;
  }

  /** The loop that carries on through the longer operand. */
  method AddCarry(ret: array<Byte>, ghost long: Bytes, short: Bytes, first: nat) returns (carry: nat)
    requires |long| == ret.Length && |short| <= |long| && first <= 1
    requires var rest := |long| - |short|;
      ret[..rest] == long[..rest] && Summed(ret[rest..], first, long[rest..], short)
    modifies ret
    ensures Summed(ret[..], carry, long, short)
  {
    hide BeValue, Pow256;
    var n, m := ret.Length, |short|;
    carry := first;
    assert forall i :: 0 <= i < n - m ==> ret[i] == ret[..n - m][i] == long[..n - m][i] == long[i];
    for k := m to n
      invariant carry <= 1
      invariant forall i :: 0 <= i < n - k ==> ret[i] == long[i]
      invariant Summed(ret[n - k..], carry, long[n - k..], short)
    {
      var at := n - 1 - k;
      var z := ret[at] + carry;
      ghost var before := ret[n - k..];
      SumSingle(before, carry, long[n - k..], short, long[at]);
      ret[at] := z % 256;
      assert ret[n - k..] == before;
      assert ret[at..] == [z % 256] + before;
      assert long[at..] == [long[at]] + long[n - k..];
      carry := z / 256;
    }
    assert long[0..] == long;
    assert ret[0..] == ret[..];
  }

  lemma SumIsAdd(x: Bytes, y: Bytes, r: Bytes, carry: nat)
    requires |r| == Max(|x|, |y|) && Summed(r, carry, x, y)
    ensures r == AddBytes(x, y)
  {
    var sum := BeValue(x) + BeValue(y);
    BeValueBound(r);
    DivMod(sum, carry, BeValue(r), Pow256(|r|));
    BeBytesValue(sum, |r|);
    BeValueInjective(r, BeBytes(sum, |r|));
  }

  /** Addition is the big-endian sum, reduced to the longer operand's length. */
  lemma AddIsModularSum(x: Bytes, y: Bytes)
    ensures |AddBytes(x, y)| == Max(|x|, |y|)
    ensures BeValue(AddBytes(x, y)) == (BeValue(x) + BeValue(y)) % Pow256(Max(|x|, |y|))
  {
    BeBytesValue(BeValue(x) + BeValue(y), Max(|x|, |y|));
  }

  lemma {:induction false} InvertValue(x: Bytes)
    ensures BeValue(InvertBytes(x)) == Pow256(|x|) - 1 - BeValue(x)
  {
    if x != [] {
      var init := x[..|x| - 1];
      InvertValue(init);
      assert InvertBytes(x)[..|x| - 1] == InvertBytes(init);
    }
  }

  /** Two's complement: adding the inverse and then one subtracts. */
  lemma SubtractByInverting(x: Bytes, y: Bytes)
    requires |x| == |y| >= 1
    ensures BeValue(AddBytes(AddBytes(x, InvertBytes(y)), [1])) == (BeValue(x) - BeValue(y)) % Pow256(|x|)
    ensures |AddBytes(AddBytes(x, InvertBytes(y)), [1])| == |x|
  {
    hide BeBytes, Pow256;
    InvertValue(y);
    BeValueBound(y);
    AddIsModularSum(x, InvertBytes(y));
    AddIsModularSum(AddBytes(x, InvertBytes(y)), [1]);
    assert BeValue([1]) == 1 by {
      assert [1][..0] == [];
    }
    ComplementSum(BeValue(x), BeValue(y), Pow256(|x|));
  }

  lemma ComplementSum(x: nat, y: nat, p: nat)
    requires y < p
    ensures ((x + (p - 1 - y)) % p + 1) % p == (x - y) % p
  {
    var sum := x + (p - 1 - y);
    assert sum == sum / p * p + sum % p;
    ModShift(sum % p + 1, sum / p, p);
    ModShift(x - y, 1, p);
  }

  /** The first loop of `less`: bytes both operands have, from the last to the first. */
  method LessPaired(x: Bytes, y: Bytes) returns (lesser: bool)
    requires |x| == |y|
    ensures lesser <==> BeValue(x) < BeValue(y)
  {
    hide BeValue;
    var n := |x|;
    lesser := false;
    assert x[n..] == y[n..];
    for k := 0 to n
      invariant lesser <==> BeValue(x[n - k..]) < BeValue(y[n - k..])
    {
      var at := n - 1 - k;
      assert x[at..] == [x[at]] + x[n - k..];
      assert y[at..] == [y[at]] + y[n - k..];
      CompareLeading(x[at], x[n - k..], y[at], y[n - k..]);
      lesser := (lesser && x[at] <= y[at]) || x[at] < y[at];
    }
    assert x[0..] == x && y[0..] == y;
  }

  /** `less` compares the paired bytes, then whichever operand has bytes left. */
  method Less(x: Bytes, y: Bytes) returns (lesser: bool)
    ensures lesser <==> BeValue(x) < BeValue(y)
  {
    hide BeValue;
    var common := Min(|x|, |y|);
    var xPrefix, xSuffix := x[..|x| - common], x[|x| - common..];
    var yPrefix, ySuffix := y[..|y| - common], y[|y| - common..];
    lesser := LessPaired(xSuffix, ySuffix);
    ghost var suffixLess := lesser;
    for k := 0 to |xPrefix|
      invariant lesser <==> suffixLess && forall i :: 0 <= i < k ==> xPrefix[i] == 0
    {
      lesser := lesser && xPrefix[k] == 0;
    }
    for k := 0 to |yPrefix|
      invariant lesser <==> (suffixLess && AllZero(xPrefix)) || exists i :: 0 <= i < k && yPrefix[i] != 0
    {
      lesser := lesser || yPrefix[k] != 0;
    }
    PrefixDecides(xPrefix, xSuffix, yPrefix, ySuffix);
    assert x == xPrefix + xSuffix && y == yPrefix + ySuffix;
  }

  lemma CompareLeading(a: Byte, s: Bytes, b: Byte, t: Bytes)
    requires |s| == |t|
    ensures BeValue([a] + s) < BeValue([b] + t) <==> (BeValue(s) < BeValue(t) && a <= b) || a < b
  {
    BeValueCons(a, s);
    BeValueCons(b, t);
    BeValueBound(s);
    BeValueBound(t);
    hide BeValue, Pow256;
    LeadingDecides(a, b, Pow256(|s|), BeValue(s), BeValue(t));
  }

  lemma LeadingDecides(a: nat, b: nat, p: nat, u: nat, v: nat)
    requires u < p && v < p
    ensures a * p + u < b * p + v <==> (u < v && a <= b) || a < b
  {
    if a < b {
      MultiplyLe(a + 1, b, p);
      Distribute(a, 1, p);
    } else if b < a {
      MultiplyLe(b + 1, a, p);
      Distribute(b, 1, p);
    }
  }

  predicate AllZero(bs: Bytes) {
    forall i :: 0 <= i < |bs| ==> bs[i] == 0
  }

  lemma PrefixDecides(xp: Bytes, xs: Bytes, yp: Bytes, ys: Bytes)
    requires |xs| == |ys| && (xp == [] || yp == [])
    ensures BeValue(xp + xs) < BeValue(yp + ys) <==>
            (BeValue(xs) < BeValue(ys) && AllZero(xp)) || !AllZero(yp)
  {
    PrefixMatters(xp, xs);
    PrefixMatters(yp, ys);
    BeValueBound(xs);
    BeValueBound(ys);
  }

  lemma {:induction false} PrefixMatters(prefix: Bytes, suffix: Bytes)
    ensures AllZero(prefix) ==> BeValue(prefix + suffix) == BeValue(suffix)
    ensures !AllZero(prefix) ==> BeValue(prefix + suffix) >= Pow256(|suffix|)
  {
    if prefix == [] {
      assert prefix + suffix == suffix;
    } else {
      var rest := prefix[1..];
      PrefixMatters(rest, suffix);
      BeValueCons(prefix[0], rest + suffix);
      HeadAndTail(prefix);
      Associate([prefix[0]], rest, suffix);
      AllZeroCons(prefix);
      PowerOfLonger(|rest|, |suffix|);
      hide BeValue, Pow256, AllZero;
      if prefix[0] > 0 {
        MultiplyLe(1, prefix[0], Pow256(|rest + suffix|));
      }
    }
  }

  lemma AllZeroCons(bs: Bytes)
    requires bs != []
    ensures AllZero(bs) <==> bs[0] == 0 && AllZero(bs[1..])
  {
    var rest := bs[1..];
    assert forall i :: 0 <= i < |rest| ==> rest[i] == bs[i + 1];
    assert forall i :: 0 < i < |bs| ==> bs[i] == rest[i - 1];
  }

  lemma PowerOfLonger(extra: nat, len: nat)
    ensures Pow256(extra + len) >= Pow256(len)
  {
    Pow256Sum(extra, len);
    MultiplyLe(1, Pow256(extra), Pow256(len));
  }

  lemma InvertTwice(x: Bytes)
    ensures InvertBytes(InvertBytes(x)) == x
  {
    assert forall i :: 0 <= i < |x| ==> InvertBytes(InvertBytes(x))[i] == x[i];
  }
}
