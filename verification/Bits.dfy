/** Bits, bytes and their big-endian values. */
module Bits {
  import opened Arithmetic

  type Byte = b: int | 0 <= b < 256

  function Pow2(n: nat): (p: nat)
    ensures p > 0
  {
    if n == 0 then 1 else 2 * Pow2(n - 1)
  }

  /** A bit as a number. */
  function Num(b: bool): (r: nat)
    ensures r <= 1
  {
    if b then 1 else 0
  }

  /** The number the bits `s[i..j]` spell, most significant first. */
  function Value(s: seq<bool>, i: nat, j: nat): nat
    requires i <= j <= |s|
    decreases j - i
  {
    if i == j then 0 else 2 * Value(s, i, j - 1) + Num(s[j - 1])
  }

  /** The number the first `n` bytes spell, most significant first. */
  function BytesValue(b: seq<Byte>, n: nat): nat
    requires n <= |b|
  {
    if n == 0 then 0 else 256 * BytesValue(b, n - 1) + b[n - 1]
  }

  /** Bit `k` of a byte: `(b >> k) & 1`. */
  function BitOf(b: Byte, k: nat): bool
    requires k < 8
  {
    b / Pow2(k) % 2 == 1
  }

  lemma {:induction false} Pow2Add(a: nat, b: nat)
    ensures Pow2(a + b) == Pow2(a) * Pow2(b)
  {
    if a > 0 {
      Pow2Add(a - 1, b);
      MulAssoc(2, Pow2(a - 1), Pow2(b));
    }
  }

  lemma Pow2Small()
    ensures Pow2(0) == 1 && Pow2(1) == 2 && Pow2(2) == 4 && Pow2(3) == 8 && Pow2(4) == 16
    ensures Pow2(5) == 32 && Pow2(6) == 64 && Pow2(7) == 128 && Pow2(8) == 256 && Pow2(11) == 2048
  {
    assert Pow2(2) == 4;
    assert Pow2(4) == 16;
    assert Pow2(6) == 64;
    assert Pow2(8) == 256;
    assert Pow2(10) == 1024;
  }

  // ----------------------------------------------------------------- values

  lemma {:induction false} ValueSplit(s: seq<bool>, i: nat, k: nat, j: nat)
    requires i <= k <= j <= |s|
    ensures Value(s, i, j) == Value(s, i, k) * Pow2(j - k) + Value(s, k, j)
    decreases j - k
  {
    if k < j {
      ValueSplit(s, i, k, j - 1);
      DoubleProduct(Value(s, i, k), Pow2(j - 1 - k));
    }
  }

  lemma DoubleProduct(v: int, p: int)
    ensures 2 * (v * p) == v * (2 * p)
  {
  }

  lemma {:induction false} ValueBound(s: seq<bool>, i: nat, j: nat)
    requires i <= j <= |s|
    ensures Value(s, i, j) < Pow2(j - i)
    decreases j - i
  {
    if i < j { ValueBound(s, i, j - 1); }
  }

  /** Keeping the last `n` bits is reducing modulo `2^n`. */
  lemma TailIsMod(s: seq<bool>, n: nat)
    requires n <= |s|
    ensures Value(s, |s| - n, |s|) == Value(s, 0, |s|) % Pow2(n)
  {
    var k := |s| - n;
    ValueSplit(s, 0, k, |s|);
    ValueBound(s, k, |s|);
    DivModUnique(Value(s, 0, |s|), Value(s, 0, k), Pow2(n), Value(s, k, |s|));
  }

  /** From `i` on, `s` holds the first `n` bits of `b`, most significant first. */
  ghost predicate Spells(s: seq<bool>, i: nat, n: nat, b: Byte) {
    n <= 8 && i + n <= |s| && forall p :: i <= p < i + n ==> s[p] == BitOf(b, 7 - (p - i))
  }

  lemma ByteOfBits(s: seq<bool>, i: nat, b: Byte)
    requires Spells(s, i, 8, b)
    ensures Value(s, i, i + 8) == b
  {
    TopBits(s, i, b, 8);
    Pow2Small();
  }

  /** The first `n` of eight bits spell the byte shifted right by the other `8 - n`. */
  lemma {:induction false} TopBits(s: seq<bool>, i: nat, b: Byte, n: nat)
    requires Spells(s, i, n, b)
    ensures Value(s, i, i + n) == b / Pow2(8 - n)
  {
    if n == 0 {
      Pow2Small();
    } else {
      TopBits(s, i, b, n - 1);
      var p := Pow2(8 - n);
      assert s[i + n - 1] == BitOf(b, 8 - n);
      assert Pow2(8 - (n - 1)) == 2 * p;
      HalfAgain(b, p);
    }
  }

  lemma HalfAgain(b: int, p: int)
    requires b >= 0 && p > 0
    ensures b / p == 2 * (b / (2 * p)) + b / p % 2
  {
    var q, r := b / (2 * p), b % (2 * p);
    assert b == (2 * p) * q + r;
    assert (2 * p) * q == (2 * q) * p;
    if r < p {
      DivModUnique(b, 2 * q, p, r);
    } else {
      MulDist(2 * q, 1, p);
      DivModUnique(b, 2 * q + 1, p, r - p);
    }
  }

  /** A byte string and the bit string it packs spell the same number. */
  lemma {:induction false} PackedValue(b: seq<Byte>, s: seq<bool>, start: nat, n: nat)
    requires n <= |b| && start + 8 * n <= |s|
    requires forall j :: 0 <= j < n ==> b[j] == Value(s, start + 8 * j, start + 8 * j + 8)
    ensures BytesValue(b, n) == Value(s, start, start + 8 * n)
  {
    if n > 0 {
      PackedValue(b, s, start, n - 1);
      ValueSplit(s, start, start + 8 * (n - 1), start + 8 * n);
      Pow2Small();
      assert b[n - 1] == Value(s, start + 8 * (n - 1), start + 8 * (n - 1) + 8);
    }
  }
}
