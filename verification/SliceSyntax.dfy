/** The slice data of a rendered P picture as the generator writes it: macroblock decisions
    in, bits out (sections 7.3.4 and 7.3.5 of ITU-T H.264). */
module SliceSyntax {
  import opened Bits
  import opened ExpGolomb
  import opened BitWriter
  import opened MotionVectors
  import opened Macroblocks

  const MAX_REF := 16

  /** An 8x8 quarter: one vector, or four 4x4 vectors sharing a reference. */
  datatype Sub = Whole(ref: nat, mv: Mv) | Split(ref: nat, mvs: seq<Mv>)

  /** What the renderer decided for one macroblock. */
  datatype Decision =
    | Background
    | Pcm(samples: seq<byte>)
    | Inter16(ref: nat, mv: Mv)
    | Inter8(subs: seq<Sub>)

  predicate InRange(mv: Mv) { -0x8000 <= mv.0 < 0x8000 && -0x8000 <= mv.1 < 0x8000 }

  predicate ValidSub(s: Sub, nref: nat) {
    && s.ref < nref
    && match s
       case Whole(_, mv) => InRange(mv)
       case Split(_, mvs) => |mvs| == 4 && forall i :: 0 <= i < 4 ==> InRange(mvs[i])
  }

  predicate ValidSubs(subs: seq<Sub>, nref: nat) {
    |subs| == 4 && forall i :: 0 <= i < 4 ==> ValidSub(subs[i], nref)
  }

  predicate Valid(d: Decision, nref: nat) {
    match d
    case Background => true
    case Pcm(samples) => |samples| == PCM_BYTES
    case Inter16(r, mv) => r < nref && InRange(mv)
    case Inter8(subs) => ValidSubs(subs, nref)
  }

  predicate AllValid(ds: seq<Decision>, nref: nat) {
    forall i :: 0 <= i < |ds| ==> Valid(ds[i], nref)
  }

  // ---------------------------------------------------------------- what is recorded

  function SplitParts(qx: int, qy: int, ref: nat, mvs: seq<Mv>, i: nat): seq<Part>
    requires i <= 4 && |mvs| == 4
    decreases 4 - i
  {
    if i == 4 then []
    else [Part(4 * BlkX(qx, i), 4 * BlkY(qy, i), 4, 4, ref, mvs[i])] + SplitParts(qx, qy, ref, mvs, i + 1)
  }

  function SubParts(qx: int, qy: int, s: Sub): seq<Part>
    requires s.Split? ==> |s.mvs| == 4
  {
    match s
    case Whole(r, mv) => [Part(4 * qx, 4 * qy, 8, 8, r, mv)]
    case Split(r, mvs) => SplitParts(qx, qy, r, mvs, 0)
  }

  function SubsParts(x4: int, y4: int, nref: nat, subs: seq<Sub>, i: nat): seq<Part>
    requires i <= 4 && ValidSubs(subs, nref)
    decreases 4 - i
  {
    if i == 4 then []
    else assert ValidSub(subs[i], nref); SubParts(SubX(x4, i), SubY(y4, i), subs[i]) + SubsParts(x4, y4, nref, subs, i + 1)
  }

  function RecordOf(x4: int, y4: int, nref: nat, d: Decision): Record
    requires Valid(d, nref)
  {
    match d
    case Background => Record([Part(4 * x4, 4 * y4, 16, 16, 0, (0, 0))], [])
    case Pcm(samples) => Record([Part(4 * x4, 4 * y4, 16, 16, -1, (0, 0))], samples)
    case Inter16(r, mv) => Record([Part(4 * x4, 4 * y4, 16, 16, r, mv)], [])
    case Inter8(subs) => Record(SubsParts(x4, y4, nref, subs, 0), [])
  }

  function RecordAt(ds: seq<Decision>, wmb: nat, nref: nat, m: nat): Record
    requires wmb > 0 && m < |ds| && AllValid(ds, nref)
  {
    RecordOf(MbX(wmb, m), MbY(wmb, m), nref, ds[m])
  }

  /** The records of macroblocks m0 .. m1 - 1. */
  function Records(ds: seq<Decision>, wmb: nat, nref: nat, m0: nat, m1: nat): (rs: seq<Record>)
    requires wmb > 0 && m0 <= m1 <= |ds| && AllValid(ds, nref)
    ensures |rs| == m1 - m0
  {
    if m0 == m1 then [] else Records(ds, wmb, nref, m0, m1 - 1) + [RecordAt(ds, wmb, nref, m1 - 1)]
  }

  // ---------------------------------------------------------------- neighbour state

  function SplitGrid(g: Grid, qx: int, qy: int, ref: nat, mvs: seq<Mv>, i: nat): Grid
    requires i <= 4 && |mvs| == 4
    decreases 4 - i
  {
    if i == 4 then g
    else SplitGrid(SetBlk(g, BlkX(qx, i), BlkY(qy, i), 1, 1, Cell(ref, mvs[i])), qx, qy, ref, mvs, i + 1)
  }

  function SubGrid(g: Grid, qx: int, qy: int, s: Sub): Grid
    requires s.Split? ==> |s.mvs| == 4
  {
    match s
    case Whole(r, mv) => SetBlk(g, qx, qy, 2, 2, Cell(r, mv))
    case Split(r, mvs) => SplitGrid(g, qx, qy, r, mvs, 0)
  }

  function SubsGrid(g: Grid, x4: int, y4: int, nref: nat, subs: seq<Sub>, i: nat): Grid
    requires i <= 4 && ValidSubs(subs, nref)
    decreases 4 - i
  {
    if i == 4 then g
    else assert ValidSub(subs[i], nref); SubsGrid(SubGrid(g, SubX(x4, i), SubY(y4, i), subs[i]), x4, y4, nref, subs, i + 1)
  }

  function MbGrid(g: Grid, x4: int, y4: int, nref: nat, d: Decision): Grid
    requires Valid(d, nref)
  {
    match d
    case Background => SetBlk(g, x4, y4, 4, 4, Cell(0, (0, 0)))
    case Pcm(_) => SetBlk(g, x4, y4, 4, 4, Cell(-1, (0, 0)))
    case Inter16(r, mv) => SetBlk(g, x4, y4, 4, 4, Cell(r, mv))
    case Inter8(subs) => SubsGrid(g, x4, y4, nref, subs, 0)
  }

  // ---------------------------------------------------------------- bits

  /** The difference between a vector and its prediction. */
  function MvBits(g: Grid, x: int, y: int, w: nat, r: int, mv: Mv): seq<bool> {
    var p := Mvp(g, x, y, w, r);
    SeBits(mv.0 - p.0) + SeBits(mv.1 - p.1)
  }

  function SplitBits(g: Grid, qx: int, qy: int, ref: nat, mvs: seq<Mv>, i: nat): seq<bool>
    requires i <= 4 && |mvs| == 4
    decreases 4 - i
  {
    if i == 4 then []
    else
      var x, y := BlkX(qx, i), BlkY(qy, i);
      MvBits(g, x, y, 1, ref, mvs[i])
      + SplitBits(SetBlk(g, x, y, 1, 1, Cell(ref, mvs[i])), qx, qy, ref, mvs, i + 1)
  }

  function SubBits(g: Grid, qx: int, qy: int, s: Sub): seq<bool>
    requires s.Split? ==> |s.mvs| == 4
  {
    match s
    case Whole(r, mv) => MvBits(g, qx, qy, 2, r, mv)
    case Split(r, mvs) => SplitBits(g, qx, qy, r, mvs, 0)
  }

  function SubsBits(g: Grid, x4: int, y4: int, nref: nat, subs: seq<Sub>, i: nat): seq<bool>
    requires i <= 4 && ValidSubs(subs, nref)
    decreases 4 - i
  {
    if i == 4 then []
    else
      assert ValidSub(subs[i], nref);
      var qx, qy := SubX(x4, i), SubY(y4, i);
      SubBits(g, qx, qy, subs[i]) + SubsBits(SubGrid(g, qx, qy, subs[i]), x4, y4, nref, subs, i + 1)
  }

  function SubType(s: Sub): nat { if s.Whole? then 0 else 3 }

  function TypesBits(subs: seq<Sub>): seq<bool> {
    if |subs| == 0 then [] else UeBits(SubType(subs[0])) + TypesBits(subs[1..])
  }

  function RefsBits(nref: nat, subs: seq<Sub>): seq<bool> {
    if |subs| == 0 then [] else TeBits(nref, subs[0].ref) + RefsBits(nref, subs[1..])
  }

  function PcmBits(pos: nat, samples: seq<byte>): seq<bool> {
    UeBits(I_PCM_IN_P) + Zeros(Padding(pos + |UeBits(I_PCM_IN_P)|)) + BytesToBits(samples)
  }

  function Inter16Bits(g: Grid, x4: int, y4: int, nref: nat, r: nat, mv: Mv): seq<bool> {
    UeBits(0) + TeBits(nref, r) + MvBits(g, x4, y4, 4, r, mv) + UeBits(0)
  }

  function Inter8Bits(g: Grid, x4: int, y4: int, nref: nat, subs: seq<Sub>): seq<bool>
    requires ValidSubs(subs, nref)
  {
    UeBits(3) + TypesBits(subs) + RefsBits(nref, subs) + SubsBits(g, x4, y4, nref, subs, 0) + UeBits(0)
  }

  /** One macroblock layer that is not skipped, starting at bit `pos` of the payload. */
  function MbBits(g: Grid, x4: int, y4: int, nref: nat, d: Decision, pos: nat): seq<bool>
    requires Valid(d, nref)
  {
    match d
    case Background => Inter16Bits(g, x4, y4, nref, 0, (0, 0))
    case Pcm(samples) => PcmBits(pos, samples)
    case Inter16(r, mv) => Inter16Bits(g, x4, y4, nref, r, mv)
    case Inter8(subs) => Inter8Bits(g, x4, y4, nref, subs)
  }

  /** A background macroblock is skipped just when the inferred vector is zero. */
  predicate IsSkipped(g: Grid, x4: int, y4: int, d: Decision) {
    d.Background? && PskipMv(g, x4, y4) == (0, 0)
  }

  /** The slice data from macroblock `m` on, with `skip` skipped macroblocks not yet written. */
  function EncodeFrom(ds: seq<Decision>, wmb: nat, nref: nat, m: nat, g: Grid, skip: nat, pos: nat)
    : seq<bool>
    requires wmb > 0 && m <= |ds| && AllValid(ds, nref)
    decreases |ds| - m
  {
    if m == |ds| then (if skip > 0 then UeBits(skip) else [])
    else
      var x4, y4, d := MbX(wmb, m), MbY(wmb, m), ds[m];
      var g' := MbGrid(g, x4, y4, nref, d);
      if IsSkipped(g, x4, y4, d) then EncodeFrom(ds, wmb, nref, m + 1, g', skip + 1, pos)
      else
        var c := UeBits(skip) + MbBits(g, x4, y4, nref, d, pos + |UeBits(skip)|);
        c + EncodeFrom(ds, wmb, nref, m + 1, g', 0, pos + |c|)
  }

  /** A payload closed by rbsp_trailing_bits. */
  function Framed(body: seq<bool>): (s: seq<bool>)
    ensures |s| % 8 == 0
  {
    body + Trailing(|body|)
  }

  /** A whole payload: slice header, slice data, trailing bits. */
  function SliceRbsp(header: seq<bool>, ds: seq<Decision>, wmb: nat, nref: nat): (s: seq<bool>)
    requires wmb > 0 && AllValid(ds, nref)
  {
    Framed(header + EncodeFrom(ds, wmb, nref, 0, map[], 0, |header|))
  }
}
