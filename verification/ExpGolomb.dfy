/** The descriptors u(n), ue(v), se(v) and te(v): their code words, and the parsing
    process of section 9.1 of ITU-T H.264, stated on its own terms. */
module ExpGolomb {
  import opened Wrappers
  import opened Bits

  /** The number of significant bits of `x`: 32 minus the leading zeros of a 32-bit word. */
  function BitLength(x: nat): (n: nat)
    requires x > 0
    ensures n > 0 && Pow2(n - 1) <= x < Pow2(n)
  {
    if x == 1 then 1 else 1 + BitLength(x / 2)
  }

  /** ue(v): one zero for every bit of v + 1 after its first, then v + 1. */
  function UeBits(v: nat): (c: seq<bool>)
    ensures |c| > 0
  {
    var n := BitLength(v + 1);
    Zeros(n - 1) + ToBits(v + 1, n)
  }

  function SeMap(v: int): nat {
    if v > 0 then 2 * v - 1 else -2 * v
  }

  function SeBits(v: int): (c: seq<bool>) {
    UeBits(SeMap(v))
  }

  /** A reference index out of `nref` active references. */
  function TeBits(nref: nat, r: nat): (c: seq<bool>) {
    if nref < 2 then [] else if nref == 2 then [r == 0] else UeBits(r)
  }

  /** The first code words of Tables 9-1 and 9-3, and te(v) by its range (9.1). */
  lemma CodeWords(r: nat)
    ensures UeBits(0) == [true] && UeBits(1) == [false, true, false] && UeBits(2) == [false, true, true]
    ensures UeBits(3) == [false, false, true, false, false] && UeBits(6) == [false, false, true, true, true]
    ensures SeBits(0) == UeBits(0) && SeBits(1) == UeBits(1) && SeBits(-1) == UeBits(2)
    ensures SeBits(2) == UeBits(3) && SeBits(-2) == UeBits(4)
    ensures TeBits(1, 0) == [] && TeBits(2, 0) == [true] && TeBits(2, 1) == [false] && TeBits(3, r) == UeBits(r)
  {
    hide UeBits;
    ShortCodes();
    LongerCodes();
  }

  lemma SmallLengths()
    ensures BitLength(1) == 1 && BitLength(2) == 2 && BitLength(3) == 2 && BitLength(4) == 3 && BitLength(7) == 3
  {
    assert BitLength(2) == 1 + BitLength(1) && BitLength(3) == 1 + BitLength(1);
  }

  lemma ShortCodes()
    ensures UeBits(0) == [true] && UeBits(1) == [false, true, false] && UeBits(2) == [false, true, true]
  {
    hide ToBits, Zeros, BitLength;
    SmallLengths();
    SmallBits();
  }

  lemma LongerCodes()
    ensures UeBits(3) == [false, false, true, false, false] && UeBits(6) == [false, false, true, true, true]
  {
    hide ToBits, Zeros, BitLength;
    SmallLengths();
    SmallBits();
  }

  lemma SmallBits()
    ensures ToBits(1, 1) == [true] && ToBits(2, 2) == [true, false] && ToBits(3, 2) == [true, true]
    ensures ToBits(4, 3) == [true, false, false] && ToBits(7, 3) == [true, true, true]
    ensures Zeros(0) == [] && Zeros(1) == [false] && Zeros(2) == [false, false]
  {
    assert ToBits(0, 0) == [];
    assert ToBits(1, 1) == ToBits(0, 0) + [true];
    assert ToBits(2, 2) == ToBits(1, 1) + [false] && ToBits(3, 2) == ToBits(1, 1) + [true];
    assert ToBits(4, 3) == ToBits(2, 2) + [false] && ToBits(7, 3) == ToBits(3, 2) + [true];
    assert Zeros(1) == Zeros(0) + [false] && Zeros(2) == Zeros(1) + [false];
  }

  // ---------------------------------------------------------------- parsing

  /** read_bits(n) at position `p`: the value and the next position. */
  function ReadU(s: seq<bool>, p: nat, n: nat): (r: Option<(nat, nat)>) {
    if p + n <= |s| then Some((FromBits(s[p..p + n]), p + n)) else None
  }

  /** leadingZeroBits: the zeros before the next one bit, if there is one. */
  function LeadingZeros(s: seq<bool>, p: nat): (r: Option<nat>)
    ensures r.Some? ==> p + r.value < |s|
    decreases |s| - p
  {
    if p >= |s| then None
    else if s[p] then Some(0)
    else var n :- LeadingZeros(s, p + 1); Some(n + 1)
  }

  /** codeNum = 2^leadingZeroBits - 1 + read_bits(leadingZeroBits). */
  function ReadUe(s: seq<bool>, p: nat): (r: Option<(nat, nat)>)
    ensures r.Some? ==> p < r.value.1 <= |s|
  {
    var z :- LeadingZeros(s, p);
    var (v, p') :- ReadU(s, p + z + 1, z);
    Some((Pow2(z) - 1 + v, p'))
  }

  /** The signed value of codeNum k is (-1)^(k+1) * Ceil(k / 2). */
  function SignedOf(k: nat): int {
    if k % 2 == 1 then (k + 1) / 2 else -(k / 2)
  }

  function ReadSe(s: seq<bool>, p: nat): (r: Option<(int, nat)>) {
    var (k, p') :- ReadUe(s, p);
    Some((SignedOf(k), p'))
  }

  /** te(v) with range nref - 1; with one reference the element is absent and infers 0. */
  function ReadTe(s: seq<bool>, p: nat, nref: nat): (r: Option<(nat, nat)>) {
    if nref < 2 then Some((0, p))
    else if nref == 2 then
      var (b, p') :- ReadU(s, p, 1);
      Some((1 - b % 2, p'))
    else
      var (v, p') :- ReadUe(s, p);
      if v < nref then Some((v, p')) else None
  }

  // ---------------------------------------------------------------- round trips

  lemma ReadUAt(s: seq<bool>, p: nat, v: nat, n: nat)
    requires v < Pow2(n) && At(s, p, ToBits(v, n))
    ensures ReadU(s, p, n) == Some((v, p + n))
  {
    FromToBits(v, n);
    assert s[p..p + n] == ToBits(v, n);
  }

  lemma {:induction false} LeadingZerosAt(s: seq<bool>, p: nat, n: nat)
    requires p + n < |s| && s[p + n] && forall i :: p <= i < p + n ==> !s[i]
    ensures LeadingZeros(s, p) == Some(n)
    decreases n
  {
    if n != 0 { LeadingZerosAt(s, p + 1, n - 1); }
  }

  /** The first bit of a code word of full length is one. */
  lemma TopBit(x: nat, n: nat)
    requires n > 0 && Pow2(n - 1) <= x < Pow2(n)
    ensures ToBits(x, n) == [true] + ToBits(x - Pow2(n - 1), n - 1)
  {
    assert ToBits(1, 1) == [true] by { assert ToBits(0, 0) == []; }
    ToBitsJoin(1, 1, x - Pow2(n - 1), n - 1);
    assert 1 * Pow2(n - 1) + (x - Pow2(n - 1)) == x;
  }

  /** A run of zeros, a one and a field as wide as the run. */
  lemma ReadUeOf(s: seq<bool>, p: nat, z: nat, v: nat)
    requires v < Pow2(z) && At(s, p, Zeros(z) + ([true] + ToBits(v, z)))
    ensures ReadUe(s, p) == Some((Pow2(z) - 1 + v, p + 2 * z + 1))
  {
    AtConcat(s, p, Zeros(z), [true] + ToBits(v, z));
    AtConcat(s, p + z, [true], ToBits(v, z));
    assert [true][0] && s[p + z + 0];
    forall i | p <= i < p + z ensures !s[i] {
      assert !Zeros(z)[i - p] && s[p + (i - p)] == Zeros(z)[i - p];
    }
    LeadingZerosAt(s, p, z);
    ReadUAt(s, p + z + 1, v, z);
  }

  /** Parsing a ue(v) code word, wherever it stands, gives back the value. */
  lemma ReadUeAt(s: seq<bool>, p: nat, v: nat)
    requires At(s, p, UeBits(v))
    ensures ReadUe(s, p) == Some((v, p + |UeBits(v)|))
  {
    var n := BitLength(v + 1);
    TopBit(v + 1, n);
    ReadUeOf(s, p, n - 1, v + 1 - Pow2(n - 1));
  }

  lemma ReadSeAt(s: seq<bool>, p: nat, v: int)
    requires At(s, p, SeBits(v))
    ensures ReadSe(s, p) == Some((v, p + |SeBits(v)|))
  {
    hide ReadUe, UeBits, At;
    ReadUeAt(s, p, SeMap(v));
  }

  lemma ReadTeAt(s: seq<bool>, p: nat, nref: nat, r: nat)
    requires r < nref && At(s, p, TeBits(nref, r))
    ensures ReadTe(s, p, nref) == Some((r, p + |TeBits(nref, r)|))
  {
    if nref == 2 {
      var v := if r == 0 then 1 else 0;
      assert ToBits(v, 1) == [r == 0] by { assert ToBits(0, 0) == []; }
      assert Pow2(1) == 2;
      ReadUAt(s, p, v, 1);
    } else if nref > 2 {
      ReadUeAt(s, p, r);
    }
  }

  // ---------------------------------------------------------------- sequences of elements

  /** One written syntax element. */
  datatype Element = U(n: nat, u: nat) | Ue(ue: nat) | Se(se: int) | Te(nref: nat, r: nat) {
    predicate Valid() {
      match this
      case U(n, u) => n <= 32 && u < Pow2(n)
      case Ue(v) => v < 0xffff_ffff
      case Se(v) => -0x4000_0000 < v < 0x4000_0000
      case Te(nref, r) => r < nref < 0xffff_ffff
    }
    function Code(): seq<bool> {
      match this
      case U(n, u) => ToBits(u, n)
      case Ue(v) => UeBits(v)
      case Se(v) => SeBits(v)
      case Te(nref, r) => TeBits(nref, r)
    }
  }

  /** What a reader knows beforehand: the kind of each element, not its value. */
  datatype Kind = KindU(n: nat) | KindUe | KindSe | KindTe(nref: nat)

  function KindOf(e: Element): Kind {
    match e
    case U(n, _) => KindU(n)
    case Ue(_) => KindUe
    case Se(_) => KindSe
    case Te(nref, _) => KindTe(nref)
  }

  function KindsOf(es: seq<Element>): (ks: seq<Kind>)
    ensures |ks| == |es|
  {
    if |es| == 0 then [] else [KindOf(es[0])] + KindsOf(es[1..])
  }

  predicate ValidElements(es: seq<Element>) {
    |es| == 0 || (es[0].Valid() && ValidElements(es[1..]))
  }

  function CodeAll(es: seq<Element>): seq<bool> {
    if |es| == 0 then [] else es[0].Code() + CodeAll(es[1..])
  }

  function ReadElement(s: seq<bool>, p: nat, k: Kind): Option<(Element, nat)> {
    match k
    case KindU(n) => var (v, p') :- ReadU(s, p, n); Some((U(n, v), p'))
    case KindUe => var (v, p') :- ReadUe(s, p); Some((Ue(v), p'))
    case KindSe => var (v, p') :- ReadSe(s, p); Some((Se(v), p'))
    case KindTe(nref) => var (r, p') :- ReadTe(s, p, nref); Some((Te(nref, r), p'))
  }

  function ReadAll(s: seq<bool>, p: nat, ks: seq<Kind>): Option<(seq<Element>, nat)>
    decreases ks
  {
    if |ks| == 0 then Some(([], p))
    else
      var (e, p') :- ReadElement(s, p, ks[0]);
      var (es, p'') :- ReadAll(s, p', ks[1..]);
      Some(([e] + es, p''))
  }

  lemma ReadElementAt(s: seq<bool>, p: nat, e: Element)
    requires e.Valid() && At(s, p, e.Code())
    ensures ReadElement(s, p, KindOf(e)) == Some((e, p + |e.Code()|))
  {
    hide ReadU, ReadUe, ReadSe, ReadTe, UeBits, SeBits, TeBits, ToBits, At;
    match e {
      case U(n, u) => ReadUAt(s, p, u, n);
      case Ue(v) => ReadUeAt(s, p, v);
      case Se(v) => ReadSeAt(s, p, v);
      case Te(nref, r) => ReadTeAt(s, p, nref, r);
    }
  }

  lemma ReadAllCons(s: seq<bool>, p: nat, k: Kind, ks: seq<Kind>,
                    e: Element, p': nat, es: seq<Element>, p'': nat)
    requires ReadElement(s, p, k) == Some((e, p')) && ReadAll(s, p', ks) == Some((es, p''))
    ensures ReadAll(s, p, [k] + ks) == Some(([e] + es, p''))
  {
    assert ([k] + ks)[1..] == ks;
  }

  /** Whatever was written, from any bit phase and whatever follows, reading the same kinds
      back returns the same elements and stops where the writer stopped. */
  lemma {:induction false} ReadAllAt(s: seq<bool>, p: nat, es: seq<Element>)
    requires ValidElements(es)
    requires At(s, p, CodeAll(es))
    ensures ReadAll(s, p, KindsOf(es)) == Some((es, p + |CodeAll(es)|))
    decreases es
  {
    hide ReadElement, Element.Code, Element.Valid, At;
    if |es| != 0 {
      var e, es', p' := es[0], es[1..], p + |es[0].Code()|;
      AtConcat(s, p, e.Code(), CodeAll(es'));
      ReadElementAt(s, p, e);
      ReadAllAt(s, p', es');
      ReadAllCons(s, p, KindOf(e), KindsOf(es'), e, p', es', p' + |CodeAll(es')|);
      assert p' + |CodeAll(es')| == p + |CodeAll(es)|;
      assert [e] + es' == es;
      assert KindsOf(es) == [KindOf(e)] + KindsOf(es');
    }
  }
}
