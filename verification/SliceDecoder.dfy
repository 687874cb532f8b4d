/** A decoder for the subset of P slices the generator uses, written from the syntax tables
    of sections 7.3.4 and 7.3.5 of ITU-T H.264 and the prediction of section 8.4.1. */
module SliceDecoder {
  import opened Wrappers
  import opened Bits
  import opened ExpGolomb
  import opened MotionVectors
  import opened Macroblocks

  /** The position of the last one bit: rbsp_stop_one_bit. */
  function LastOne(s: seq<bool>): int {
    if |s| == 0 then -1 else if s[|s| - 1] then |s| - 1 else LastOne(s[..|s| - 1])
  }

  /** more_rbsp_data(): there is a bit before rbsp_trailing_bits. */
  predicate MoreData(s: seq<bool>, p: nat) { p < LastOne(s) }

  /** mvd_l0, added to the prediction. */
  function ParseMv(s: seq<bool>, p: nat, g: Grid, x: int, y: int, w: nat, r: int): Option<(Mv, nat)> {
    var pred := Predicted(g, x, y, w, r);
    var (dx, p1) :- ReadSe(s, p);
    var (dy, p2) :- ReadSe(s, p1);
    Some(((pred.0 + dx, pred.1 + dy), p2))
  }

  /** The four 4x4 blocks of one quarter, from block `i`. */
  function ParseSplit(s: seq<bool>, p: nat, g: Grid, qx: int, qy: int, ref: nat, i: nat)
    : Option<(seq<Part>, nat, Grid)>
    requires i <= 4
    decreases 4 - i
  {
    if i == 4 then Some(([], p, g))
    else
      var x, y := BlkX(qx, i), BlkY(qy, i);
      var (mv, p1) :- ParseMv(s, p, g, x, y, 1, ref);
      var (rest, p2, g2) :- ParseSplit(s, p1, SetBlk(g, x, y, 1, 1, Cell(ref, mv)), qx, qy, ref, i + 1);
      Some(([Part(4 * x, 4 * y, 4, 4, ref, mv)] + rest, p2, g2))
  }

  /** sub_mb_pred of one quarter: sub_mb_type 0 is P_L0_8x8, 3 is P_L0_4x4. */
  function ParseSub(s: seq<bool>, p: nat, g: Grid, qx: int, qy: int, subType: nat, ref: nat)
    : Option<(seq<Part>, nat, Grid)>
  {
    if subType == 0 then
      var (mv, p1) :- ParseMv(s, p, g, qx, qy, 2, ref);
      Some(([Part(4 * qx, 4 * qy, 8, 8, ref, mv)], p1, SetBlk(g, qx, qy, 2, 2, Cell(ref, mv))))
    else if subType == 3 then ParseSplit(s, p, g, qx, qy, ref, 0)
    else None
  }

  function ParseSubs(s: seq<bool>, p: nat, g: Grid, x4: int, y4: int, types: seq<nat>, refs: seq<nat>, i: nat)
    : Option<(seq<Part>, nat, Grid)>
    requires i <= 4 == |types| == |refs|
    decreases 4 - i
  {
    if i == 4 then Some(([], p, g))
    else
      var (a, p1, g1) :- ParseSub(s, p, g, SubX(x4, i), SubY(y4, i), types[i], refs[i]);
      var (b, p2, g2) :- ParseSubs(s, p1, g1, x4, y4, types, refs, i + 1);
      Some((a + b, p2, g2))
  }

  function ParseTypes(s: seq<bool>, p: nat, k: nat): (r: Option<(seq<nat>, nat)>)
    ensures r.Some? ==> |r.value.0| == k
    decreases k
  {
    if k == 0 then Some(([], p))
    else
      var (t, p1) :- ReadUe(s, p);
      var (ts, p2) :- ParseTypes(s, p1, k - 1);
      Some(([t] + ts, p2))
  }

  function ParseRefs(s: seq<bool>, p: nat, nref: nat, k: nat): (r: Option<(seq<nat>, nat)>)
    ensures r.Some? ==> |r.value.0| == k
    decreases k
  {
    if k == 0 then Some(([], p))
    else
      var (t, p1) :- ReadTe(s, p, nref);
      var (ts, p2) :- ParseRefs(s, p1, nref, k - 1);
      Some(([t] + ts, p2))
  }

  /** coded_block_pattern; the subset carries no residual, so it must be Inter 0. */
  function ParseCbp(s: seq<bool>, p: nat): Option<nat> {
    var (cbp, p1) :- ReadUe(s, p);
    if cbp == 0 then Some(p1) else None
  }

  function ParseInter16(s: seq<bool>, p: nat, g: Grid, x4: int, y4: int, nref: nat)
    : Option<(Record, nat, Grid)>
  {
    var (r, p1) :- ReadTe(s, p, nref);
    var (mv, p2) :- ParseMv(s, p1, g, x4, y4, 4, r);
    var p3 :- ParseCbp(s, p2);
    Some((Record([Part(4 * x4, 4 * y4, 16, 16, r, mv)], []), p3, SetBlk(g, x4, y4, 4, 4, Cell(r, mv))))
  }

  function ParseInter8(s: seq<bool>, p: nat, g: Grid, x4: int, y4: int, nref: nat)
    : Option<(Record, nat, Grid)>
  {
    var (types, p1) :- ParseTypes(s, p, 4);
    var (refs, p2) :- ParseRefs(s, p1, nref, 4);
    var (parts, p3, g1) :- ParseSubs(s, p2, g, x4, y4, types, refs, 0);
    var p4 :- ParseCbp(s, p3);
    Some((Record(parts, []), p4, g1))
  }

  /** pcm_alignment_zero_bit up to the byte boundary, then 384 samples. */
  function ParsePcm(s: seq<bool>, p: nat, g: Grid, x4: int, y4: int): Option<(Record, nat, Grid)> {
    var q := (p + 7) / 8 * 8;
    var e := q + 8 * 384;
    if e <= |s| && (forall i :: p <= i < q ==> !s[i]) then
      Some((Record([Part(4 * x4, 4 * y4, 16, 16, -1, (0, 0))], BitsToBytes(s[q..e])),
            e, SetBlk(g, x4, y4, 4, 4, Cell(-1, (0, 0)))))
    else None
  }

  function ParseMb(s: seq<bool>, p: nat, g: Grid, x4: int, y4: int, nref: nat): Option<(Record, nat, Grid)> {
    var (mbType, p1) :- ReadUe(s, p);
    if mbType == 0 then ParseInter16(s, p1, g, x4, y4, nref)
    else if mbType == 3 then ParseInter8(s, p1, g, x4, y4, nref)
    else if mbType == 30 then ParsePcm(s, p1, g, x4, y4)   // I_PCM: 25 of the I types, after the 5 P types
    else None
  }

  /** `k` P_Skip macroblocks from `m`: each infers its vector from its neighbours. */
  function SkipRun(g: Grid, wmb: nat, m: nat, k: nat): (r: (seq<Record>, Grid))
    requires wmb > 0
    ensures |r.0| == k
  {
    if k == 0 then ([], g)
    else
      var (rs, g') := SkipRun(g, wmb, m, k - 1);
      var x4, y4 := MbX(wmb, m + k - 1), MbY(wmb, m + k - 1);
      var mv := Skipped(g', x4, y4);
      (rs + [Record([Part(4 * x4, 4 * y4, 16, 16, 0, mv)], [])], SetBlk(g', x4, y4, 4, 4, Cell(0, mv)))
  }

  /** slice_data() from macroblock `m` of `n`. */
  function ParseSlice(s: seq<bool>, p: nat, wmb: nat, n: nat, nref: nat, m: nat, g: Grid)
    : Option<seq<Record>>
    requires wmb > 0 && m <= n
    decreases n - m
  {
    var (run, p1) :- ReadUe(s, p);
    if m + run > n then None
    else
      var (skipped, g1) := SkipRun(g, wmb, m, run);
      if run > 0 && !MoreData(s, p1) then (if m + run == n then Some(skipped) else None)
      else if m + run == n then None
      else
        var (rec, p2, g2) :- ParseMb(s, p1, g1, MbX(wmb, m + run), MbY(wmb, m + run), nref);
        if MoreData(s, p2) then
          var rest :- ParseSlice(s, p2, wmb, n, nref, m + run + 1, g2);
          Some(skipped + [rec] + rest)
        else if m + run + 1 == n then Some(skipped + [rec])
        else None
  }
}
