/** The partitions recorded of a macroblock tile it, and they and the neighbour state hold what was
    decided for each of its sixteen 4x4 blocks. */
module Partitions {
  import opened ExpGolomb
  import opened MotionVectors
  import opened Macroblocks
  import opened SliceSyntax

  /** What was decided for the block in column i and row j of a macroblock. */
  function Decided(d: Decision, nref: nat, i: nat, j: nat): Cell
    requires Valid(d, nref) && i < 4 && j < 4
  {
    match d
    case Background => Cell(0, (0, 0))
    case Pcm(_) => Cell(-1, (0, 0))
    case Inter16(r, mv) => Cell(r, mv)
    case Inter8(subs) =>
      assert ValidSub(subs[j / 2 * 2 + i / 2], nref);
      InQuarter(subs[j / 2 * 2 + i / 2], i % 2, j % 2)
  }

  function InQuarter(s: Sub, i: nat, j: nat): Cell
    requires i < 2 && j < 2 && (s.Split? ==> |s.mvs| == 4)
  {
    match s
    case Whole(r, mv) => Cell(r, mv)
    case Split(r, mvs) => Cell(r, mvs[j * 2 + i])
  }

  predicate Covers(p: Part, x: int, y: int) { p.x <= 4 * x < p.x + p.w && p.y <= 4 * y < p.y + p.h }

  /** The reference and vector of every partition over the block at (x, y). */
  function Covering(parts: seq<Part>, x: int, y: int): seq<Cell> {
    if parts == [] then []
    else (if Covers(parts[0], x, y) then [Cell(parts[0].ref, parts[0].mv)] else []) + Covering(parts[1..], x, y)
  }

  lemma {:induction false} CoveringBoth(a: seq<Part>, b: seq<Part>, x: int, y: int)
    ensures Covering(a + b, x, y) == Covering(a, x, y) + Covering(b, x, y)
    decreases |a|
  {
    if a == [] {
      assert a + b == b;
    } else {
      assert (a + b)[1..] == a[1..] + b;
      CoveringBoth(a[1..], b, x, y);
    }
  }

  lemma CoveringNone(x: int, y: int)
    ensures Covering([], x, y) == []
  {
  }

  lemma CoveringOne(p: Part, x: int, y: int)
    ensures Covering([p], x, y) == if Covers(p, x, y) then [Cell(p.ref, p.mv)] else []
  {
  }

  predicate Inside(qx: int, qy: int, n: nat, x: int, y: int) { qx <= x < qx + n && qy <= y < qy + n }

  // ---------------------------------------------------------------- one quarter

  /** The blocks of a split quarter from the i-th on. */
  lemma {:induction false} SplitTiles(qx: int, qy: int, ref: nat, mvs: seq<Mv>, i: nat, x: int, y: int)
    requires i <= 4 && |mvs| == 4
    ensures Covering(SplitParts(qx, qy, ref, mvs, i), x, y) ==
              if Inside(qx, qy, 2, x, y) && i <= (y - qy) * 2 + (x - qx)
              then [Cell(ref, mvs[(y - qy) * 2 + (x - qx)])] else []
    decreases 4 - i
  {
    hide BlkX, BlkY, Covering;
    if i == 4 {
      CoveringNone(x, y);
    } else {
      var p := Part(4 * BlkX(qx, i), 4 * BlkY(qy, i), 4, 4, ref, mvs[i]);
      SplitTiles(qx, qy, ref, mvs, i + 1, x, y);
      CoveringBoth([p], SplitParts(qx, qy, ref, mvs, i + 1), x, y);
      CoveringOne(p, x, y);
      BlockIs(qx, qy, i, x, y);
      assert Covers(p, x, y) <==> x == BlkX(qx, i) && y == BlkY(qy, i);
    }
  }

  lemma QuarterTiles(qx: int, qy: int, s: Sub, x: int, y: int)
    requires s.Split? ==> |s.mvs| == 4
    ensures Covering(SubParts(qx, qy, s), x, y) ==
              if Inside(qx, qy, 2, x, y) then [InQuarter(s, x - qx, y - qy)] else []
  {
    match s
    case Whole(r, mv) => CoveringOne(Part(4 * qx, 4 * qy, 8, 8, r, mv), x, y);
    case Split(r, mvs) => SplitTiles(qx, qy, r, mvs, 0, x, y);
  }

  lemma {:induction false} SplitSets(g: Grid, qx: int, qy: int, ref: nat, mvs: seq<Mv>, i: nat, x: int, y: int)
    requires i <= 4 && |mvs| == 4
    ensures Candidate(SplitGrid(g, qx, qy, ref, mvs, i), x, y) ==
              if Inside(qx, qy, 2, x, y) && i <= (y - qy) * 2 + (x - qx)
              then Cell(ref, mvs[(y - qy) * 2 + (x - qx)]) else Candidate(g, x, y)
    decreases 4 - i
  {
    hide SetBlk, Candidate, BlkX, BlkY;
    if i < 4 {
      var c := Cell(ref, mvs[i]);
      SplitSets(SetBlk(g, BlkX(qx, i), BlkY(qy, i), 1, 1, c), qx, qy, ref, mvs, i + 1, x, y);
      CandidateIs(g, BlkX(qx, i), BlkY(qy, i), 1, 1, c, x, y);
      BlockIs(qx, qy, i, x, y);
    }
  }

  lemma CandidateIs(g: Grid, x0: int, y0: int, w: nat, h: nat, c: Cell, x: int, y: int)
    ensures Candidate(SetBlk(g, x0, y0, w, h, c), x, y) ==
              if x0 <= x < x0 + w && y0 <= y < y0 + h then c else Candidate(g, x, y)
  {
  }

  lemma BlockIs(qx: int, qy: int, i: nat, x: int, y: int)
    requires i < 4
    ensures x == BlkX(qx, i) && y == BlkY(qy, i) <==> Inside(qx, qy, 2, x, y) && i == (y - qy) * 2 + (x - qx)
  {
  }

  lemma QuarterSets(g: Grid, qx: int, qy: int, s: Sub, x: int, y: int)
    requires s.Split? ==> |s.mvs| == 4
    ensures Candidate(SubGrid(g, qx, qy, s), x, y) ==
              if Inside(qx, qy, 2, x, y) then InQuarter(s, x - qx, y - qy) else Candidate(g, x, y)
  {
    hide SetBlk, Candidate;
    match s
    case Whole(r, mv) => CandidateIs(g, qx, qy, 2, 2, Cell(r, mv), x, y);
    case Split(r, mvs) => SplitSets(g, qx, qy, r, mvs, 0, x, y);
  }

  // ---------------------------------------------------------------- the macroblock

  /** Which quarter of the macroblock the block is in. */
  function Quarter(x4: int, y4: int, x: int, y: int): (q: nat)
    requires Inside(x4, y4, 4, x, y)
    ensures q < 4 && Inside(SubX(x4, q), SubY(y4, q), 2, x, y)
    ensures forall k :: 0 <= k < 4 && k != q ==> !Inside(SubX(x4, k), SubY(y4, k), 2, x, y)
  {
    (y - y4) / 2 * 2 + (x - x4) / 2
  }

  /** The quarters from the i-th on. */
  lemma {:induction false} SubsTile(x4: int, y4: int, nref: nat, subs: seq<Sub>, i: nat, x: int, y: int)
    requires i <= 4 && ValidSubs(subs, nref) && Inside(x4, y4, 4, x, y)
    ensures var q := Quarter(x4, y4, x, y);
            Covering(SubsParts(x4, y4, nref, subs, i), x, y) ==
              if i <= q then assert ValidSub(subs[q], nref); [InQuarter(subs[q], x - SubX(x4, q), y - SubY(y4, q))] else []
    decreases 4 - i
  {
    hide SubX, SubY, InQuarter, SubParts, Covering, SubsParts, Quarter;
    if i == 4 {
      SubsPartsStep(x4, y4, nref, subs, i);
      CoveringNone(x, y);
    } else {
      assert ValidSub(subs[i], nref);
      SubsPartsStep(x4, y4, nref, subs, i);
      SubsTile(x4, y4, nref, subs, i + 1, x, y);
      var one, rest := SubParts(SubX(x4, i), SubY(y4, i), subs[i]), SubsParts(x4, y4, nref, subs, i + 1);
      CoveringBoth(one, rest, x, y);
      QuarterTiles(SubX(x4, i), SubY(y4, i), subs[i], x, y);
      if i == Quarter(x4, y4, x, y) {
        assert Covering(rest, x, y) == [];
      } else {
        assert Covering(one, x, y) == [];
      }
    }
  }

  lemma SubsPartsStep(x4: int, y4: int, nref: nat, subs: seq<Sub>, i: nat)
    requires i <= 4 && ValidSubs(subs, nref)
    ensures i == 4 ==> SubsParts(x4, y4, nref, subs, i) == []
    ensures i < 4 ==>
              && ValidSub(subs[i], nref)
              && SubsParts(x4, y4, nref, subs, i)
                 == SubParts(SubX(x4, i), SubY(y4, i), subs[i]) + SubsParts(x4, y4, nref, subs, i + 1)
  {
  }

  lemma {:induction false} SubsSet(g: Grid, x4: int, y4: int, nref: nat, subs: seq<Sub>, i: nat, x: int, y: int)
    requires i <= 4 && ValidSubs(subs, nref) && Inside(x4, y4, 4, x, y)
    ensures var q := Quarter(x4, y4, x, y);
            Candidate(SubsGrid(g, x4, y4, nref, subs, i), x, y) ==
              if i <= q then assert ValidSub(subs[q], nref); InQuarter(subs[q], x - SubX(x4, q), y - SubY(y4, q)) else Candidate(g, x, y)
    decreases 4 - i
  {
    hide SubX, SubY, InQuarter, SubGrid, Candidate;
    var q := Quarter(x4, y4, x, y);
    if i < 4 {
      assert ValidSub(subs[i], nref);
      SubsSet(SubGrid(g, SubX(x4, i), SubY(y4, i), subs[i]), x4, y4, nref, subs, i + 1, x, y);
      QuarterSets(g, SubX(x4, i), SubY(y4, i), subs[i], x, y);
    }
  }

  lemma PlaceIs(x4: int, y4: int, i: nat, j: nat)
    requires i < 4 && j < 4
    ensures var q := Quarter(x4, y4, x4 + i, y4 + j);
            q == j / 2 * 2 + i / 2 && x4 + i - SubX(x4, q) == i % 2 && y4 + j - SubY(y4, q) == j % 2
  {
  }

  /** Exactly one recorded partition lies over each block, and it has the reference and vector decided
      for it. */
  lemma RecordTiles(x4: int, y4: int, nref: nat, d: Decision, i: nat, j: nat)
    requires Valid(d, nref) && i < 4 && j < 4
    ensures Covering(RecordOf(x4, y4, nref, d).parts, x4 + i, y4 + j) == [Decided(d, nref, i, j)]
    ensures RecordOf(x4, y4, nref, d).pcm == if d.Pcm? then d.samples else []
  {
    hide Covering, SubsParts, InQuarter, SubX, SubY, Quarter;
    if d.Inter8? {
      PlaceIs(x4, y4, i, j);
      SubsTile(x4, y4, nref, d.subs, 0, x4 + i, y4 + j);
    } else {
      var c := Decided(d, nref, i, j);
      CoveringOne(Part(4 * x4, 4 * y4, 16, 16, c.ref, c.mv), x4 + i, y4 + j);
    }
  }

  /** And that is what later blocks see of it. */
  lemma NeighboursSeeDecided(g: Grid, x4: int, y4: int, nref: nat, d: Decision, i: nat, j: nat)
    requires Valid(d, nref) && i < 4 && j < 4
    ensures Candidate(MbGrid(g, x4, y4, nref, d), x4 + i, y4 + j) == Decided(d, nref, i, j)
  {
    hide Candidate, SetBlk, SubsGrid, InQuarter, SubX, SubY, Quarter;
    if d.Inter8? {
      PlaceIs(x4, y4, i, j);
      SubsSet(g, x4, y4, nref, d.subs, 0, x4 + i, y4 + j);
    } else {
      CandidateIs(g, x4, y4, 4, 4, Decided(d, nref, i, j), x4 + i, y4 + j);
    }
  }

  // ---------------------------------------------------------------- background

  function AllBackground(n: nat): (ds: seq<Decision>)
    ensures |ds| == n && forall i :: 0 <= i < n ==> ds[i] == Background
  {
    seq(n, _ => Background)
  }

  predicate Still(g: Grid) { forall k :: k in g ==> g[k] == Cell(0, (0, 0)) }

  lemma {:induction false} StillRun(n: nat, wmb: nat, nref: nat, m: nat, g: Grid, pos: nat)
    requires wmb > 0 && m <= n && Still(g)
    ensures EncodeFrom(AllBackground(n), wmb, nref, m, g, m, pos) == if n > 0 then UeBits(n) else []
    decreases n - m
  {
    hide UeBits, MbBits;
    if m < n {
      var x4, y4 := MbX(wmb, m), MbY(wmb, m);
      assert IsSkipped(g, x4, y4, Background);
      StillRun(n, wmb, nref, m + 1, MbGrid(g, x4, y4, nref, Background), pos);
    }
  }

  /** A picture of nothing but background is one skip run. */
  lemma BackgroundIsOneRun(n: nat, wmb: nat, nref: nat, pos: nat)
    requires wmb > 0 && n > 0
    ensures EncodeFrom(AllBackground(n), wmb, nref, 0, map[], 0, pos) == UeBits(n)
  {
    StillRun(n, wmb, nref, 0, map[], pos);
  }
}
