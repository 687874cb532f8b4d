/** The bit writer of the H.264 generator: a byte buffer and a 64-bit accumulator. */
module BitWriter {
  import opened Wrappers
  import opened Bits
  import opened ExpGolomb

  const WORD := 0x1_0000_0000_0000_0000  // 2^64

  class BW {
    var buf: seq<byte>
    var acc: nat
    var n: nat

    /** Between calls fewer than eight bits are pending and the accumulator holds no others. */
    ghost predicate Valid()
      reads this
    {
      n < 8 && acc < Pow2(n)
    }

    /** Everything written so far: the flushed bytes, then the pending bits. */
    ghost function Contents(): (s: seq<bool>)
      reads this
    {
      BytesToBits(buf) + ToBits(acc, n)
    }

    constructor ()
      ensures Valid() && Contents() == [] && buf == [] && acc == 0 && n == 0
    {
      buf, acc, n := [], 0, 0;
      new;
      assert ToBits(0, 0) == [];
    }

    /** bw_u: the low `k` bits of `v`. */
    method PutBits(k: nat, v: nat)
      requires Valid() && k <= 32
      modifies this
      ensures Valid() && Contents() == old(Contents()) + ToBits(v, k)
    {
      hide BytesToBits, ToBits, Pow2, ShiftIn, Shr;
      ShiftInExact(acc, n, v, k);
      acc := ShiftIn(acc, v, k);
      n := n + k;
      assert Contents() == old(Contents()) + ToBits(v, k);
      while n >= 8
        invariant Contents() == old(Contents()) + ToBits(v, k)
        decreases n
      {
        n := n - 8;
        FlushExact(buf, acc, n);
        buf := buf + [Shr(acc, n) % 256];
      }
      MaskExact(acc, n);
      acc := acc % Pow2(n);
    }

    /** bw_ue: a code word longer than 32 bits is written in two parts. */
    method PutUe(v: nat)
      requires Valid() && v < 0xffff_ffff
      modifies this
      ensures Valid() && Contents() == old(Contents()) + UeBits(v)
    {
      hide UeBits, ToBits, BytesToBits, BitLength, Pow2;
      var x := v + 1;
      var nb := BitLength(x);
      UeParts(v);
      if 2 * nb - 1 <= 32 {
        PutBits(2 * nb - 1, x);
      } else {
        PutBits(nb - 1, 0);
        PutBits(nb, x);
        assert Contents() == old(Contents()) + (ToBits(0, nb - 1) + ToBits(x, nb));
      }
    }

    /** bw_se, on the values whose code number is a C int. */
    method PutSe(v: int)
      requires Valid() && -0x4000_0000 < v < 0x4000_0000
      modifies this
      ensures Valid() && Contents() == old(Contents()) + SeBits(v)
    {
      PutUe(if v > 0 then 2 * v - 1 else -2 * v);
    }

    /** bw_te: nothing with one reference, one inverted bit with two, ue(v) beyond. */
    method PutTe(nref: nat, r: nat)
      requires Valid() && r < nref < 0xffff_ffff
      modifies this
      ensures Valid() && Contents() == old(Contents()) + TeBits(nref, r)
    {
      if nref == 2 {
        var b := if r == 0 then 1 else 0;
        PutBits(1, b);
        assert ToBits(b, 1) == [r == 0] by { assert ToBits(b / 2, 0) == []; }
      } else if nref > 2 {
        PutUe(r);
      } else {
        assert Contents() == old(Contents()) + [];
      }
    }

    /** The zero bits up to the next byte boundary. */
    method Align()
      requires Valid()
      modifies this
      ensures Valid() && n == 0 && acc == 0
      ensures Contents() == old(Contents()) + Zeros(Padding(|old(Contents())|))
      ensures Contents() == BytesToBits(buf)
    {
      hide BytesToBits, Pow2, ToBits;
      ghost var start := Contents();
      assert |start| == 8 * |buf| + n;
      if n != 0 {
        PutBits(8 - n, 0);
        ToBitsZero(8 - old(n));
        assert |Contents()| == 8 * |buf| + n;
      } else {
        assert start == start + Zeros(0);
      }
      PowZero();
      NoBits();
    }

    /** Bytes copied straight behind an empty accumulator. */
    method PutBytes(bs: seq<byte>)
      requires Valid() && n == 0
      modifies this
      ensures Valid() && n == 0 && acc == 0
      ensures Contents() == old(Contents()) + BytesToBits(bs)
    {
      assert Pow2(0) == 1;
      assert ToBits(acc, 0) == [];
      BytesToBitsConcat(buf, bs);
      buf := buf + bs;
    }

    /** bw_trailing: the stop bit and the zeros after it. */
    method PutTrailing()
      requires Valid()
      modifies this
      ensures Valid() && n == 0
      ensures Contents() == old(Contents()) + Trailing(|old(Contents())|)
      ensures Contents() == BytesToBits(buf)
    {
      hide BytesToBits, ToBits, Pow2, Padding, Valid, Contents;
      ghost var start := Contents();
      PutBits(1, 1);
      OneBit();
      Align();
      Associative(start, [true], Zeros(Padding(|start| + 1)));
    }

    method PutElement(e: Element)
      requires Valid() && e.Valid()
      modifies this
      ensures Valid() && Contents() == old(Contents()) + e.Code()
    {
      match e {
        case U(k, u) => PutBits(k, u);
        case Ue(v) => PutUe(v);
        case Se(v) => PutSe(v);
        case Te(nref, r) => PutTe(nref, r);
      }
    }
  }

  lemma OneBit()
    ensures ToBits(1, 1) == [true]
  {
    assert ToBits(0, 0) == [];
  }

  /** The accumulator after `k` more bits, with the wrap-around of its 64-bit shift. The low
      bits of the shifted word are zero, so the bitwise or is a sum. */
  function ShiftIn(acc: nat, v: nat, k: nat): nat {
    Join(acc, v, k) % WORD
  }

  /** The accumulator never loses a bit: at most seven are pending and 32 come in. */
  lemma ShiftInExact(acc: nat, n: nat, v: nat, k: nat)
    requires n < 8 && acc < Pow2(n) && k <= 32
    ensures ToBits(ShiftIn(acc, v, k), n + k) == ToBits(acc, n) + ToBits(v, k)
  {
    hide Pow2, ToBits, Join;
    ToBitsAppend(acc, n, v, k);
    Pow2Values();
    Pow2Monotone(n + k, 64);
  }

  lemma FlushExact(buf: seq<byte>, acc: nat, n: nat)
    ensures BytesToBits(buf + [Shr(acc, n) % 256]) + ToBits(acc, n)
         == BytesToBits(buf) + ToBits(acc, n + 8)
  {
    var b: byte := Shr(acc, n) % 256;
    ToBitsSplit(acc, 8, n);
    Pow2Values();
    ToBitsMod(Shr(acc, n), 8);
    BytesToBitsSnoc(buf, b);
  }

  lemma MaskExact(acc: nat, n: nat)
    ensures acc % Pow2(n) < Pow2(n) && ToBits(acc % Pow2(n), n) == ToBits(acc, n)
  {
    DivMod(acc, Pow2(n));
    ToBitsMod(acc, n);
  }

  /** Both ways of writing a ue(v) code word give its bits, in fields of at most 32. */
  lemma UeParts(v: nat)
    requires v < 0xffff_ffff
    ensures var nb := BitLength(v + 1);
            && nb <= 32
            && UeBits(v) == ToBits(0, nb - 1) + ToBits(v + 1, nb)
            && UeBits(v) == ToBits(v + 1, 2 * nb - 1)
  {
    hide Pow2, ToBits;
    var nb := BitLength(v + 1);
    Pow2Values();
    if nb > 32 { Pow2Monotone(32, nb - 1); }
    ToBitsZero(nb - 1);
    ToBitsJoin(0, nb - 1, v + 1, nb);
    assert 0 * Pow2(nb) + (v + 1) == v + 1 && nb - 1 + nb == 2 * nb - 1;
  }

  /** The zeros from bit `p` to the next byte boundary. */
  function Padding(p: nat): (k: nat)
    ensures k < 8 && (p + k) % 8 == 0
  {
    (8 - p % 8) % 8
  }

  /** rbsp_trailing_bits after `p` bits. */
  function Trailing(p: nat): (t: seq<bool>)
    ensures |t| > 0 && t[0] && (p + |t|) % 8 == 0
    ensures forall i :: 1 <= i < |t| ==> !t[i]
  {
    [true] + Zeros(Padding(p + 1))
  }

  /** Any sequence of elements, written from any bit phase, is found by a reader that knows
      their kinds; the buffer and the pending bits are exactly the concatenation. */
  method WriteAll(w: BW, es: seq<Element>)
    requires w.Valid()
    requires ValidElements(es)
    modifies w
    ensures w.Valid() && w.Contents() == old(w.Contents()) + CodeAll(es)
    ensures ReadAll(w.Contents(), |old(w.Contents())|, KindsOf(es)) == Some((es, |w.Contents()|))
  {
    ghost var start := w.Contents();
    var i := 0;
    assert es[0..] == es;
    while i < |es|
      invariant 0 <= i <= |es| && w.Valid() && ValidElements(es[i..])
      invariant w.Contents() + CodeAll(es[i..]) == start + CodeAll(es)
    {
      CodeAllStep(w.Contents(), es, i);
      w.PutElement(es[i]);
      i := i + 1;
    }
    assert w.Contents() + [] == w.Contents();
    WrittenIsRead(start, es);
  }

  lemma CodeAllStep(c: seq<bool>, es: seq<Element>, i: nat)
    requires i < |es|
    ensures c + CodeAll(es[i..]) == (c + es[i].Code()) + CodeAll(es[i + 1..])
  {
    assert es[i..][0] == es[i] && es[i..][1..] == es[i + 1..];
  }

  lemma WrittenIsRead(start: seq<bool>, es: seq<Element>)
    requires ValidElements(es)
    ensures ReadAll(start + CodeAll(es), |start|, KindsOf(es)) == Some((es, |start + CodeAll(es)|))
  {
    hide CodeAll, ReadAll, KindsOf, ValidElements;
    AtEnd(start, CodeAll(es));
    ReadAllAt(start + CodeAll(es), |start|, es);
  }
}
