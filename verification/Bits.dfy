/** Bit strings, most significant bit first, and the numbers they stand for. */
module Bits {

  type byte = b: int | 0 <= b < 256

  function Min(a: int, b: int): int { if a < b then a else b }
  function Max(a: int, b: int): int { if a < b then b else a }

  function Pow2(n: nat): (p: nat)
    ensures p > 0
  {
    if n == 0 then 1 else 2 * Pow2(n - 1)
  }

  /** The low `n` bits of `v`. */
  function ToBits(v: nat, n: nat): (s: seq<bool>)
    ensures |s| == n
  {
    if n == 0 then [] else ToBits(v / 2, n - 1) + [v % 2 == 1]
  }

  function FromBits(s: seq<bool>): nat {
    if |s| == 0 then 0
    else 2 * FromBits(s[..|s| - 1]) + (if s[|s| - 1] then 1 else 0)
  }

  function Zeros(n: nat): (s: seq<bool>)
    ensures |s| == n
    ensures forall i :: 0 <= i < n ==> !s[i]
  {
    if n == 0 then [] else Zeros(n - 1) + [false]
  }

  function BytesToBits(bs: seq<byte>): (s: seq<bool>)
    ensures |s| == 8 * |bs|
  {
    if |bs| == 0 then [] else BytesToBits(bs[..|bs| - 1]) + ToBits(bs[|bs| - 1], 8)
  }

  function BitsToBytes(s: seq<bool>): (bs: seq<byte>)
    requires |s| % 8 == 0
    ensures |bs| == |s| / 8
  {
    if |s| == 0 then []
    else
      FromBitsBound(s[|s| - 8..]);
      Pow2Values();
      BitsToBytes(s[..|s| - 8]) + [FromBits(s[|s| - 8..])]
  }

  /** The code word `c` stands at position `p` of the bit string `s`. */
  predicate At(s: seq<bool>, p: nat, c: seq<bool>) {
    p + |c| <= |s| && forall i {:trigger c[i]} :: 0 <= i < |c| ==> s[p + i] == c[i]
  }

  lemma {:induction false} Pow2Add(a: nat, b: nat)
    ensures Pow2(a + b) == Pow2(a) * Pow2(b)
  {
    if a != 0 {
      Pow2Add(a - 1, b);
      assert Pow2(a + b) == 2 * (Pow2(a - 1) * Pow2(b)) == (2 * Pow2(a - 1)) * Pow2(b);
    }
  }

  lemma PowZero()
    ensures Pow2(0) == 1
  {
  }

  lemma Pow2Values()
    ensures Pow2(8) == 0x100 && Pow2(16) == 0x1_0000
    ensures Pow2(32) == 0x1_0000_0000 && Pow2(64) == 0x1_0000_0000_0000_0000
  {
    assert Pow2(4) == 16;
    Pow2Add(4, 4);
    Pow2Add(8, 8);
    Pow2Add(16, 16);
    Pow2Add(32, 32);
  }

  lemma {:induction false} Pow2Monotone(a: nat, b: nat)
    requires a <= b
    ensures Pow2(a) <= Pow2(b)
  {
    if a < b { Pow2Monotone(a, b - 1); }
  }

  lemma NoBits()
    ensures FromBits([]) == 0 && forall v: nat {:trigger ToBits(v, 0)} :: ToBits(v, 0) == []
  {
  }

  lemma ToBitsLast(v: nat, n: nat)
    requires n > 0
    ensures ToBits(v, n) == ToBits(v / 2, n - 1) + [v % 2 == 1]
  {
  }

  lemma FromBitsLast(s: seq<bool>, b: bool)
    ensures FromBits(s + [b]) == 2 * FromBits(s) + (if b then 1 else 0)
  {
    assert (s + [b])[..|s|] == s;
  }

  /** Reading back `n` bits of a number that fits gives the number. */
  lemma {:induction false} FromToBits(v: nat, n: nat)
    requires v < Pow2(n)
    ensures FromBits(ToBits(v, n)) == v
  {
    hide FromBits, ToBits;
    if n == 0 {
      NoBits();
    } else {
      FromToBits(v / 2, n - 1);
      ToBitsLast(v, n);
      FromBitsLast(ToBits(v / 2, n - 1), v % 2 == 1);
    }
  }

  lemma {:induction false} FromBitsBound(s: seq<bool>)
    ensures FromBits(s) < Pow2(|s|)
  {
    if |s| != 0 { FromBitsBound(s[..|s| - 1]); }
  }

  /** Every bit string is the code of the number it stands for. */
  lemma {:induction false} ToFromBits(s: seq<bool>)
    ensures ToBits(FromBits(s), |s|) == s
  {
    if |s| != 0 { ToFromBits(s[..|s| - 1]); }
  }

  lemma MulAtLeast(x: int, q: int)
    requires x >= 1 && q >= 0
    ensures x * q >= q
  {
    assert x * q == (x - 1) * q + q;
  }

  /** Quotient and remainder are unique. */
  lemma DivUnique(n: int, q: int, a: int, r: int)
    requires q > 0 && n == a * q + r && 0 <= r < q
    ensures n / q == a && n % q == r
  {
    var a', r' := n / q, n % q;
    assert n == q * a' + r';
    if a > a' {
      MulAtLeast(a - a', q);
    } else if a < a' {
      MulAtLeast(a' - a, q);
    }
  }

  lemma DivMod(n: int, q: int)
    requires q > 0
    ensures n == (n / q) * q + n % q && 0 <= n % q < q
  {
    assert n == q * (n / q) + n % q;
  }

  /** Appending `m` bits to `n` pending ones is multiplying and adding. */
  lemma {:induction false} ToBitsJoin(a: nat, n: nat, r: nat, m: nat)
    requires r < Pow2(m)
    ensures ToBits(a * Pow2(m) + r, n + m) == ToBits(a, n) + ToBits(r, m)
  {
    if m == 0 {
      assert ToBits(r, 0) == [];
    } else {
      var q := Pow2(m - 1);
      var x := a * Pow2(m) + r;
      HalfOf(a, q, r);
      ToBitsJoin(a, n, r / 2, m - 1);
      assert ToBits(x, n + m) == ToBits(x / 2, n + m - 1) + [x % 2 == 1];
      assert ToBits(r, m) == ToBits(r / 2, m - 1) + [r % 2 == 1];
    }
  }

  lemma HalfOf(a: nat, q: nat, r: nat)
    ensures (a * (2 * q) + r) / 2 == a * q + r / 2
    ensures (a * (2 * q) + r) % 2 == r % 2
  {
    assert a * (2 * q) == 2 * (a * q);
  }

  /** Only the low bits matter. */
  lemma ToBitsMod(v: nat, n: nat)
    ensures ToBits(v % Pow2(n), n) == ToBits(v, n)
  {
    DivMod(v, Pow2(n));
    NonNegative(v, Pow2(n));
    ToBitsJoin(v / Pow2(n), 0, v % Pow2(n), n);
  }

  lemma NonNegative(v: nat, q: nat)
    requires q > 0
    ensures v / q >= 0
  {
  }

  /** Shift right. */
  function Shr(v: nat, m: nat): nat {
    NonNegative(v, Pow2(m));
    v / Pow2(m)
  }

  /** A wide field is its high part followed by its low part. */
  lemma ToBitsSplit(v: nat, n: nat, m: nat)
    ensures ToBits(v, n + m) == ToBits(Shr(v, m), n) + ToBits(v, m)
  {
    DivMod(v, Pow2(m));
    ToBitsJoin(Shr(v, m), n, v % Pow2(m), m);
    ToBitsMod(v, m);
  }

  /** Shift left by `m` and put the low `m` bits of `v` in the room made. */
  function Join(acc: nat, v: nat, m: nat): nat {
    acc * Pow2(m) + v % Pow2(m)
  }

  /** An accumulator of `n` pending bits takes `m` more without losing any. */
  lemma ToBitsAppend(acc: nat, n: nat, v: nat, m: nat)
    requires acc < Pow2(n)
    ensures Join(acc, v, m) < Pow2(n + m)
    ensures ToBits(Join(acc, v, m), n + m) == ToBits(acc, n) + ToBits(v, m)
  {
    Pow2Add(n, m);
    JoinBound(acc, Pow2(n), v % Pow2(m), Pow2(m));
    ToBitsJoin(acc, n, v % Pow2(m), m);
    ToBitsMod(v, m);
  }

  lemma JoinBound(a: nat, b: nat, r: nat, q: nat)
    requires a < b && r < q
    ensures a * q + r < b * q
  {
    MulAtLeast(b - a, q);
    assert (b - a) * q == b * q - a * q;
  }

  lemma {:induction false} ToBitsZero(n: nat)
    ensures ToBits(0, n) == Zeros(n)
  {
    if n != 0 { ToBitsZero(n - 1); }
  }

  lemma BytesToBitsSnoc(a: seq<byte>, b: byte)
    ensures BytesToBits(a + [b]) == BytesToBits(a) + ToBits(b, 8)
  {
    assert (a + [b])[..|a|] == a;
  }

  lemma {:induction false} BytesToBitsConcat(a: seq<byte>, b: seq<byte>)
    ensures BytesToBits(a + b) == BytesToBits(a) + BytesToBits(b)
  {
    hide ToBits;
    if |b| == 0 {
      assert a + b == a;
    } else {
      var b' := b[..|b| - 1];
      BytesToBitsConcat(a, b');
      assert (a + b)[..|a + b| - 1] == a + b';
    }
  }

  /** Bytes are recovered from their bits. */
  lemma {:induction false} BytesRoundTrip(bs: seq<byte>)
    ensures BitsToBytes(BytesToBits(bs)) == bs
  {
    hide Pow2, ToBits, FromBits;
    if |bs| != 0 {
      var s := BytesToBits(bs);
      BytesRoundTrip(bs[..|bs| - 1]);
      assert s[..|s| - 8] == BytesToBits(bs[..|bs| - 1]);
      assert s[|s| - 8..] == ToBits(bs[|bs| - 1], 8);
      Pow2Values();
      FromToBits(bs[|bs| - 1], 8);
    }
  }

  /** And bits from the bytes they fill. */
  lemma {:induction false} BitsRoundTrip(s: seq<bool>)
    requires |s| % 8 == 0
    ensures BytesToBits(BitsToBytes(s)) == s
  {
    hide ToBits, FromBits;
    if |s| != 0 {
      BitsRoundTrip(s[..|s| - 8]);
      ToFromBits(s[|s| - 8..]);
      var bs := BitsToBytes(s);
      assert bs[..|bs| - 1] == BitsToBytes(s[..|s| - 8]);
    }
  }

  lemma AtConcat(s: seq<bool>, p: nat, a: seq<bool>, b: seq<bool>)
    requires At(s, p, a + b)
    ensures At(s, p, a) && At(s, p + |a|, b)
  {
    forall i | 0 <= i < |a| ensures s[p + i] == a[i] {
      assert (a + b)[i] == a[i];
    }
    forall i | 0 <= i < |b| ensures s[p + |a| + i] == b[i] {
      assert (a + b)[|a| + i] == b[i];
    }
  }

  lemma Associative<T>(a: seq<T>, b: seq<T>, c: seq<T>)
    ensures a + (b + c) == (a + b) + c
  {
  }

  /** The head and the rest of a suffix. */
  lemma SuffixHead<T>(s: seq<T>, k: nat)
    requires k < |s|
    ensures s[k..] == [s[k]] + s[k + 1..] && s[k..][0] == s[k] && s[k..][1..] == s[k + 1..]
  {
  }

  lemma AtEnd(start: seq<bool>, c: seq<bool>)
    ensures At(start + c, |start|, c)
  {
  }
}
