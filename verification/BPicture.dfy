/** The smoothing B picture: two lists of one reference each, two neighbour grids. Edge
    macroblocks are B_Bi_16x16, all others B_L0_16x16 with a zero vector. */
module BPicture {
  import opened Wrappers
  import opened Bits
  import opened ExpGolomb
  import opened BitWriter
  import opened MotionVectors
  import opened Macroblocks
  import opened SliceSyntax
  import opened SliceDecoder
  import opened SliceRoundTrip
  import opened SliceEncoder
  import opened Nal

  const B_L0_16X16 := 1
  const B_BI_16X16 := 3

  /** The vectors of one macroblock; list 1 is unused outside edge macroblocks. */
  datatype BRecord = BRecord(l0: Mv, l1: Option<Mv>)

  /** The vectors an edge macroblock takes from each list. */
  datatype Motion = Motion(m0: Mv, m1: Mv)

  predicate ValidMotion(mo: Motion) { InRange(mo.m0) && InRange(mo.m1) }

  function BRecordOf(edge: bool, mo: Motion): BRecord {
    if edge then BRecord(mo.m0, Some(mo.m1)) else BRecord((0, 0), None)
  }

  /** What a macroblock leaves in the list 0 and the list 1 grid. */
  function Grid0(g: Grid, x4: int, y4: int, r: BRecord): Grid {
    SetBlk(g, x4, y4, 4, 4, Cell(0, r.l0))
  }

  function Grid1(g: Grid, x4: int, y4: int, r: BRecord): Grid {
    SetBlk(g, x4, y4, 4, 4, if r.l1.Some? then Cell(0, r.l1.value) else Cell(-1, (0, 0)))
  }

  function BMbBits(g0: Grid, g1: Grid, x4: int, y4: int, r: BRecord): seq<bool> {
    UeBits(0) + UeBits(if r.l1.Some? then B_BI_16X16 else B_L0_16X16)
    + MvBits(g0, x4, y4, 4, 0, r.l0)
    + (if r.l1.Some? then MvBits(g1, x4, y4, 4, 0, r.l1.value) else [])
    + UeBits(0)
  }

  function BEncodeFrom(edges: seq<bool>, mo: Motion, wmb: nat, m: nat, g0: Grid, g1: Grid): seq<bool>
    requires wmb > 0 && m <= |edges|
    decreases |edges| - m
  {
    if m == |edges| then []
    else
      var x4, y4, r := MbX(wmb, m), MbY(wmb, m), BRecordOf(edges[m], mo);
      BMbBits(g0, g1, x4, y4, r)
      + BEncodeFrom(edges, mo, wmb, m + 1, Grid0(g0, x4, y4, r), Grid1(g1, x4, y4, r))
  }

  function BRecords(edges: seq<bool>, mo: Motion, m: nat): (rs: seq<BRecord>)
    requires m <= |edges|
    ensures |rs| == |edges| - m
    decreases |edges| - m
  {
    if m == |edges| then [] else [BRecordOf(edges[m], mo)] + BRecords(edges, mo, m + 1)
  }

  /** Edge macroblocks are predicted from both lists, the others from list 0 where they are. */
  lemma {:induction false} BRecordsAre(edges: seq<bool>, mo: Motion, m: nat, i: nat)
    requires m <= i < |edges|
    ensures BRecords(edges, mo, m)[i - m] ==
              if edges[i] then BRecord(mo.m0, Some(mo.m1)) else BRecord((0, 0), None)
    decreases i - m
  {
    if m < i { BRecordsAre(edges, mo, m + 1, i); }
  }

  function BSliceRbsp(header: seq<bool>, edges: seq<bool>, mo: Motion, wmb: nat): seq<bool>
    requires wmb > 0
  {
    Framed(header + BEncodeFrom(edges, mo, wmb, 0, map[], map[]))
  }

  // ---------------------------------------------------------------- decoder

  /** macroblock_layer() of a B macroblock with one reference per list: no ref_idx is coded. */
  function ParseBMb(s: seq<bool>, p: nat, g0: Grid, g1: Grid, x4: int, y4: int): Option<(BRecord, nat)> {
    var (t, p1) :- ReadUe(s, p);
    if t == 1 then          // B_L0_16x16, Table 7-14
      var (mv, p2) :- ParseMv(s, p1, g0, x4, y4, 4, 0);
      var p3 :- ParseCbp(s, p2);
      Some((BRecord(mv, None), p3))
    else if t == 3 then     // B_Bi_16x16
      var (a, p2) :- ParseMv(s, p1, g0, x4, y4, 4, 0);
      var (b, p3) :- ParseMv(s, p2, g1, x4, y4, 4, 0);
      var p4 :- ParseCbp(s, p3);
      Some((BRecord(a, Some(b)), p4))
    else None
  }

  /** What a decoded macroblock leaves in one list's grid: reference 0 with its vector, or -1 where it
      does not use the list. */
  function Decoded(g: Grid, x4: int, y4: int, mv: Option<Mv>): Grid {
    SetBlk(g, x4, y4, 4, 4, if mv.Some? then Cell(0, mv.value) else Cell(-1, (0, 0)))
  }

  lemma GridsAreDecoded(g0: Grid, g1: Grid, x4: int, y4: int, r: BRecord)
    ensures Grid0(g0, x4, y4, r) == Decoded(g0, x4, y4, Some(r.l0)) && Grid1(g1, x4, y4, r) == Decoded(g1, x4, y4, r.l1)
  {
    hide SetBlk;
  }

  /** slice_data() without skipped macroblocks (B_Skip would need direct prediction). */
  function ParseBSlice(s: seq<bool>, p: nat, wmb: nat, n: nat, m: nat, g0: Grid, g1: Grid): Option<seq<BRecord>>
    requires wmb > 0 && m < n
    decreases n - m
  {
    var x4, y4 := MbX(wmb, m), MbY(wmb, m);
    var (run, p1) :- ReadUe(s, p);
    if run != 0 then None
    else
      var (r, p2) :- ParseBMb(s, p1, g0, g1, x4, y4);
      if MoreData(s, p2) then
        if m + 1 == n then None
        else
          var rest :- ParseBSlice(s, p2, wmb, n, m + 1, Decoded(g0, x4, y4, Some(r.l0)), Decoded(g1, x4, y4, r.l1));
          Some([r] + rest)
      else if m + 1 == n then Some([r]) else None
  }

  // ---------------------------------------------------------------- round trip

  lemma BMbRoundTrip(s: seq<bool>, p: nat, g0: Grid, g1: Grid, x4: int, y4: int, r: BRecord)
    requires At(s, p, BMbBits(g0, g1, x4, y4, r))
    ensures ReadUe(s, p) == Some((0, p + |UeBits(0)|))
    ensures ParseBMb(s, p + |UeBits(0)|, g0, g1, x4, y4) == Some((r, p + |BMbBits(g0, g1, x4, y4, r)|))
  {
    hide At, UeBits, ReadUe, MvBits, ParseMv, ParseCbp;
    var a, b := UeBits(0), UeBits(if r.l1.Some? then B_BI_16X16 else B_L0_16X16);
    var c := MvBits(g0, x4, y4, 4, 0, r.l0);
    var d := if r.l1.Some? then MvBits(g1, x4, y4, 4, 0, r.l1.value) else [];
    AtConcat(s, p, a + b + c + d, a);
    AtConcat(s, p, a + b + c, d);
    AtConcat(s, p, a + b, c);
    AtConcat(s, p, a, b);
    ReadUeAt(s, p, 0);
    ReadUeAt(s, p + |a|, if r.l1.Some? then B_BI_16X16 else B_L0_16X16);
    MvRoundTrip(s, p + |a + b|, g0, x4, y4, 4, 0, r.l0);
    if r.l1.Some? { MvRoundTrip(s, p + |a + b + c|, g1, x4, y4, 4, 0, r.l1.value); }
    CbpRoundTrip(s, p + |a + b + c + d|);
  }

  lemma {:induction false} BSliceRoundTripFrom(
      s: seq<bool>, p: nat, edges: seq<bool>, mo: Motion, wmb: nat, m: nat, g0: Grid, g1: Grid)
    requires wmb > 0 && m < |edges|
    requires At(s, p, BEncodeFrom(edges, mo, wmb, m, g0, g1))
    requires LastOne(s) == p + |BEncodeFrom(edges, mo, wmb, m, g0, g1)|
    ensures ParseBSlice(s, p, wmb, |edges|, m, g0, g1) == Some(BRecords(edges, mo, m))
    decreases |edges| - m
  {
    hide At, UeBits, ReadUe, BMbBits, ParseBMb, Grid0, Grid1, Decoded, MbX, MbY, BRecordOf;
    var x4, y4, r := MbX(wmb, m), MbY(wmb, m), BRecordOf(edges[m], mo);
    GridsAreDecoded(g0, g1, x4, y4, r);
    var c, h0, h1 := BMbBits(g0, g1, x4, y4, r), Grid0(g0, x4, y4, r), Grid1(g1, x4, y4, r);
    var rest := BEncodeFrom(edges, mo, wmb, m + 1, h0, h1);
    AtConcat(s, p, c, rest);
    BMbRoundTrip(s, p, g0, g1, x4, y4, r);
    if m + 1 < |edges| {
      BEncodeNonempty(edges, mo, wmb, m + 1, h0, h1);
      BSliceRoundTripFrom(s, p + |c|, edges, mo, wmb, m + 1, h0, h1);
    } else {
      assert rest == [] && BRecords(edges, mo, m + 1) == [];
      assert BRecords(edges, mo, m) == [r];
    }
  }

  lemma BEncodeNonempty(edges: seq<bool>, mo: Motion, wmb: nat, m: nat, g0: Grid, g1: Grid)
    requires wmb > 0 && m < |edges|
    ensures BEncodeFrom(edges, mo, wmb, m, g0, g1) != []
  {
    hide UeBits, MvBits, Grid0, Grid1, MbX, MbY;
  }

  /** Whatever the edge map and the two vectors, the decoder recovers both lists' vectors of
      every macroblock. */
  lemma BSliceDecodes(header: seq<bool>, edges: seq<bool>, mo: Motion, wmb: nat)
    requires wmb > 0 && |edges| > 0
    ensures ParseBSlice(BSliceRbsp(header, edges, mo, wmb), |header|, wmb, |edges|, 0, map[], map[])
         == Some(BRecords(edges, mo, 0))
  {
    hide BEncodeFrom, BRecords, ParseBSlice, LastOne;
    var e := BEncodeFrom(edges, mo, wmb, 0, map[], map[]);
    var body := header + e;
    var s := BSliceRbsp(header, edges, mo, wmb);
    assert s == body + [true] + Zeros(Padding(|body| + 1));
    LastOneTrailing(body, Padding(|body| + 1));
    assert At(s, |header|, e);
    BSliceRoundTripFrom(s, |header|, edges, mo, wmb, 0, map[], map[]);
  }

  // ---------------------------------------------------------------- encoder

  /** One macroblock of encode_bpic. */
  method PutBMb(b: BW, l0: MvState, l1: MvState, x4: nat, y4: nat, edge: bool, mo: Motion)
    requires b.Valid() && l0.Valid() && l1.Valid() && Fits(l0, x4, y4) && Fits(l1, x4, y4) && ValidMotion(mo)
    requires l0 != l1 && l0.sref != l1.sref && l0.smv != l1.smv && l0.sdone != l1.sdone
    modifies b, l0, l1, l0.sref, l0.smv, l0.sdone, l1.sref, l1.smv, l1.sdone
    ensures b.Valid() && l0.Valid() && l1.Valid()
    ensures b.Contents() == old(b.Contents()) + BMbBits(old(l0.g), old(l1.g), x4, y4, BRecordOf(edge, mo))
    ensures l0.g == Grid0(old(l0.g), x4, y4, BRecordOf(edge, mo))
    ensures l1.g == Grid1(old(l1.g), x4, y4, BRecordOf(edge, mo))
  {
    hide UeBits, MvBits, SetBlk, BW.Contents, BW.Valid, MvState.Valid;
    var a := if edge then mo.m0 else (0, 0);
    b.PutUe(0);
    b.PutUe(if edge then B_BI_16X16 else B_L0_16X16);
    l0.PutMv(b, x4, y4, 4, 0, a);
    if edge {
      l1.PutMv(b, x4, y4, 4, 0, mo.m1);
    } else {
      l1.Set(x4, y4, 4, 4, -1, (0, 0));
      assert b.Contents() == b.Contents() + [];
    }
    b.PutUe(0);
  }

  /** The macroblock loop of encode_bpic, after the slice header. */
  method EncodeBSlice(b: BW, l0: MvState, l1: MvState, edges: seq<bool>, mo: Motion, wmb: nat, hmb: nat)
    requires b.Valid() && l0.Valid() && l1.Valid() && ValidMotion(mo)
    requires l0 != l1 && l0.sref != l1.sref && l0.smv != l1.smv && l0.sdone != l1.sdone
    requires wmb > 0 && |edges| == wmb * hmb
    requires l0.w4 == l1.w4 == 4 * wmb && l0.h4 == l1.h4 == 4 * hmb
    modifies b, l0, l1, l0.sref, l0.smv, l0.sdone, l1.sref, l1.smv, l1.sdone
    ensures b.Valid() && b.Contents() == BSliceRbsp(old(b.Contents()), edges, mo, wmb)
    ensures b.Contents() == BytesToBits(b.buf)
  {
    hide BEncodeFrom, BMbBits, Grid0, Grid1, BRecordOf, BW.Contents, BW.Valid, MvState.Valid, BytesToBits, MbX, MbY;
    l0.Clear();
    l1.Clear();
    ghost var header := b.Contents();
    ghost var all := header + BEncodeFrom(edges, mo, wmb, 0, map[], map[]);
    var my, m := 0, 0;
    while my < hmb
      invariant 0 <= my <= hmb && m == my * wmb <= |edges|
      invariant b.Valid() && l0.Valid() && l1.Valid()
      invariant b.Contents() + BEncodeFrom(edges, mo, wmb, m, l0.g, l1.g) == all
    {
      var mx := 0;
      while mx < wmb
        invariant 0 <= mx <= wmb && m == my * wmb + mx <= |edges|
        invariant b.Valid() && l0.Valid() && l1.Valid()
        invariant b.Contents() + BEncodeFrom(edges, mo, wmb, m, l0.g, l1.g) == all
      {
        RowEnd(wmb, hmb, my, mx);
        MbAt(wmb, my, mx);
        BEncodeStep(b.Contents(), edges, mo, wmb, m, l0.g, l1.g);
        PutBMb(b, l0, l1, 4 * mx, 4 * my, edges[m], mo);
        mx, m := mx + 1, m + 1;
      }
      assert (my + 1) * wmb == my * wmb + wmb;
      my := my + 1;
    }
    assert m == |edges| by { assert my == hmb; }
    BEncodeEnd(b.Contents(), edges, mo, wmb, l0.g, l1.g);
    b.PutTrailing();
  }

  lemma BEncodeStep(c: seq<bool>, edges: seq<bool>, mo: Motion, wmb: nat, m: nat, g0: Grid, g1: Grid)
    requires wmb > 0 && m < |edges|
    ensures var x4, y4, r := MbX(wmb, m), MbY(wmb, m), BRecordOf(edges[m], mo);
            c + BEncodeFrom(edges, mo, wmb, m, g0, g1)
            == (c + BMbBits(g0, g1, x4, y4, r))
               + BEncodeFrom(edges, mo, wmb, m + 1, Grid0(g0, x4, y4, r), Grid1(g1, x4, y4, r))
  {
    hide BMbBits, Grid0, Grid1, BRecordOf, MbX, MbY;
  }

  lemma BEncodeEnd(c: seq<bool>, edges: seq<bool>, mo: Motion, wmb: nat, g0: Grid, g1: Grid)
    requires wmb > 0
    ensures c + BEncodeFrom(edges, mo, wmb, |edges|, g0, g1) == c
  {
  }

  // ---------------------------------------------------------------- end to end

  /** The B picture as one NAL unit: slice header, macroblocks, trailing bits, escapes. A receiver
      that drops the escapes reads the header back and recovers both lists' vectors of every
      macroblock, and never sees a start code inside. */
  method EncodeBPicture(header: seq<Element>, edges: seq<bool>, mo: Motion, wmb: nat, hmb: nat, refIdc: nat, nalType: nat)
    returns (nal: seq<byte>)
    requires ValidElements(header) && refIdc < 4 && nalType < 32
    requires wmb > 0 && 0 < |edges| == wmb * hmb && ValidMotion(mo)
    ensures |nal| >= 5 && nal[..4] == [0, 0, 0, 1] && nal[4] == refIdc * 32 + nalType && NoStartCode(nal[5..])
    ensures var s := BytesToBits(NalPayload(nal));
            && ReadAll(s, 0, KindsOf(header)) == Some((header, |CodeAll(header)|))
            && ParseBSlice(s, |CodeAll(header)|, wmb, |edges|, 0, map[], map[]) == Some(BRecords(edges, mo, 0))
  {
    hide BSliceRbsp, BRecords, ParseBSlice, Escape, NoStartCode, Unescape, ReadAll, CodeAll, KindsOf, MvState.Valid,
         BW.Contents, BW.Valid, BytesToBits;
    var b := new BW();
    WriteAll(b, header);
    assert b.Contents() == CodeAll(header);
    var l0 := new MvState(4 * wmb, 4 * hmb);
    var l1 := new MvState(4 * wmb, 4 * hmb);
    EncodeBSlice(b, l0, l1, edges, mo, wmb, hmb);
    BSliceDecodes(CodeAll(header), edges, mo, wmb);
    BHeaderStays(header, edges, mo, wmb);
    nal := NalWrap(refIdc, nalType, b.buf);
    NalRoundTrip(nal, refIdc * 32 + nalType, b.buf);
  }

  lemma BHeaderStays(header: seq<Element>, edges: seq<bool>, mo: Motion, wmb: nat)
    requires ValidElements(header) && wmb > 0
    ensures ReadAll(BSliceRbsp(CodeAll(header), edges, mo, wmb), 0, KindsOf(header)) == Some((header, |CodeAll(header)|))
  {
    hide BEncodeFrom, CodeAll, ReadAll, KindsOf;
    var s := BSliceRbsp(CodeAll(header), edges, mo, wmb);
    assert At(s, 0, CodeAll(header));
    ReadAllAt(s, 0, header);
  }
}
