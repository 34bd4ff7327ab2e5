/** Vocabulary shared by every module: options, results, bytes, and powers of two. */
module Basics {
  datatype Option<+T> = None | Some(value: T)

  datatype Result<+T, +E> = Ok(value: T) | Err(error: E)

  type Byte = x: int | 0 <= x < 256

  type Bytes = seq<Byte>

  const USIZE_LIMIT: nat := 0x1_0000_0000_0000_0000
  const U32_LIMIT: nat := 0x1_0000_0000

  function Min(a: nat, b: nat): nat {
    if a < b then a else b
  }

  function Max(a: nat, b: nat): nat {
    if a < b then b else a
  }

  function Pow2(n: nat): (r: nat)
    ensures r >= 1
  {
    if n == 0 then 1 else 2 * Pow2(n - 1)
  }

  function Pow256(n: nat): (r: nat)
    ensures r >= 1
  {
    if n == 0 then 1 else 256 * Pow256(n - 1)
  }

  /** The position of the leading one bit: Rust's `ilog2`. */
  function Log2(n: nat): (k: nat)
    requires n >= 1
    ensures Pow2(k) <= n < Pow2(k + 1)
  {
    if n == 1 then 0 else Log2(n / 2) + 1
  }

  lemma Associate<T>(a: seq<T>, b: seq<T>, c: seq<T>)
    ensures a + b + c == a + (b + c)
  {
  }

  /** Cutting a sum within its first part. */
  lemma CutSum<T>(a: seq<T>, b: seq<T>, k: nat)
    requires k <= |a|
    ensures (a + b)[..k] == a[..k] && (a + b)[k..] == a[k..] + b
  {
  }

  lemma HeadAndTail<T>(a: seq<T>)
    requires a != []
    ensures a == [a[0]] + a[1..]
  {
  }

  lemma {:induction false} Pow2Monotone(a: nat, b: nat)
    requires a <= b
    ensures Pow2(a) <= Pow2(b)
    decreases b - a
  {
    if a < b {
      Pow2Monotone(a, b - 1);
    }
  }

  lemma Pow2Less(a: nat, b: nat)
    requires a < b
    ensures Pow2(a) < Pow2(b)
  {
    Pow2Monotone(a + 1, b);
  }

  lemma {:induction false} Pow2Sum(a: nat, b: nat)
    ensures Pow2(a + b) == Pow2(a) * Pow2(b)
  {
    if a > 0 {
      Pow2Sum(a - 1, b);
      assert Pow2(a + b) == 2 * Pow2(a - 1 + b);
    }
  }

  lemma Log2Unique(n: nat, k: nat)
    requires n >= 1
    requires Pow2(k) <= n < Pow2(k + 1)
    ensures Log2(n) == k
  {
    var l := Log2(n);
    if l < k {
      Pow2Monotone(l + 1, k);
    } else if k < l {
      Pow2Monotone(k + 1, l);
    }
  }

  lemma Pow2SixtyThree()
    ensures Pow2(63) == 0x8000_0000_0000_0000
  {
    assert Pow2(8) == 256;
    assert Pow2(7) == 128;
    Pow2Sum(8, 8);
    Pow2Sum(16, 16);
    Pow2Sum(32, 16);
    Pow2Sum(48, 8);
    Pow2Sum(56, 7);
  }

  lemma {:induction false} Pow256Positive(n: nat)
    requires n >= 1
    ensures Pow256(n) >= 256
  {
    if n > 1 {
      Pow256Positive(n - 1);
    }
  }

  lemma {:induction false} Pow256Sum(a: nat, b: nat)
    ensures Pow256(a + b) == Pow256(a) * Pow256(b)
  {
    if a > 0 {
      Pow256Sum(a - 1, b);
      assert Pow256(a + b) == 256 * Pow256(a - 1 + b);
    }
  }

  lemma Distribute(a: int, b: int, c: int)
    ensures (a + b) * c == a * c + b * c
  {
  }

  lemma MultiplyLe(a: int, b: int, c: nat)
    requires a <= b
    ensures a * c <= b * c
  {
    Distribute(a, b - a, c);
  }

  /** A quotient and remainder are known from any decomposition of the right shape. */
  lemma DivMod(a: int, q: int, r: nat, d: nat)
    requires a == q * d + r && r < d
    ensures a / d == q && a % d == r
  {
    var q', r' := a / d, a % d;
    assert a == q' * d + r';
    if q' < q {
      MultiplyLe(q' + 1, q, d);
      Distribute(q', 1, d);
      assert false;
    }
    if q < q' {
      MultiplyLe(q + 1, q', d);
      Distribute(q, 1, d);
      assert false;
    }
  }

  lemma ModShift(a: int, k: int, d: nat)
    requires d >= 1
    ensures (a + k * d) % d == a % d
  {
    assert a == a / d * d + a % d;
    Distribute(a / d, k, d);
    DivMod(a + k * d, a / d + k, a % d, d);
  }
}
