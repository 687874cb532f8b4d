/** Motion vector prediction over a grid of 4x4 blocks, as the generator computes it and as
    sections 8.4.1.1 and 8.4.1.3 of ITU-T H.264 define it. */
module MotionVectors {
  import opened Bits

  type Mv = (int, int)

  /** What a decoded 4x4 block leaves for its neighbours; `ref` is -1 in an intra macroblock. */
  datatype Cell = Cell(ref: int, mv: Mv)

  /** The blocks decoded so far. A block outside the picture is never in the grid. */
  type Grid = map<(int, int), Cell>

  datatype Neighbour = Neighbour(available: bool, ref: int, mv: Mv)

  function Nb(g: Grid, x: int, y: int): (n: Neighbour)
    ensures n.available <==> (x, y) in g
  {
    if (x, y) in g then Neighbour(true, g[(x, y)].ref, g[(x, y)].mv) else Neighbour(false, -1, (0, 0))
  }

  function Block(x: int, y: int, w: nat, h: nat): (b: set<(int, int)>)
    ensures forall k :: k in b <==> x <= k.0 < x + w && y <= k.1 < y + h
  {
    set i, j | x <= i < x + w && y <= j < y + h :: (i, j)
  }

  function SetBlk(g: Grid, x: int, y: int, w: nat, h: nat, c: Cell): (r: Grid) {
    g + map k | k in Block(x, y, w, h) :: c
  }

  // ---------------------------------------------------------------- the generator's functions

  function Med(a: int, b: int, c: int): int {
    var (lo, hi) := if a > b then (b, a) else (a, b);
    var hi' := if hi > c then c else hi;
    if lo > hi' then lo else hi'
  }

  function Count(b: bool): nat { if b then 1 else 0 }

  /** Three neighbours, the last already replaced by D where C is unavailable. */
  function Combine(a: Neighbour, b0: Neighbour, c0: Neighbour, r: int): Mv {
    var onlyA := !b0.available && !c0.available && a.available;
    var b := if onlyA then a else b0;
    var c := if onlyA then a else c0;
    if Count(a.ref == r) + Count(b.ref == r) + Count(c.ref == r) == 1 then
      if a.ref == r then a.mv else if b.ref == r then b.mv else c.mv
    else
      (Med(a.mv.0, b.mv.0, c.mv.0), Med(a.mv.1, b.mv.1, c.mv.1))
  }

  function Mvp(g: Grid, x: int, y: int, w: nat, r: int): Mv {
    var cr := Nb(g, x + w, y - 1);
    Combine(Nb(g, x - 1, y), Nb(g, x, y - 1), if cr.available then cr else Nb(g, x - 1, y - 1), r)
  }

  function PskipMv(g: Grid, x: int, y: int): Mv {
    var a, b := Nb(g, x - 1, y), Nb(g, x, y - 1);
    if !a.available || !b.available || (a.ref == 0 && a.mv == (0, 0)) || (b.ref == 0 && b.mv == (0, 0))
    then (0, 0)
    else Mvp(g, x, y, 4, 0)
  }

  // ---------------------------------------------------------------- the standard

  /** Median(x, y, z), equation 5-10. */
  function Median(x: int, y: int, z: int): int {
    x + y + z - Min(x, Min(y, z)) - Max(x, Max(y, z))
  }

  /** What stands at a neighbouring position: reference -1 and a zero vector where nothing is
      available (8.4.1.3.2). */
  function Candidate(g: Grid, x: int, y: int): Cell { if (x, y) in g then g[(x, y)] else Cell(-1, (0, 0)) }

  /** Neighbours A, B and C of a partition (8.4.1.3.2), C replaced by D where unavailable,
      and B and C by A where A alone is available (8.4.1.3). */
  function Neighbours(g: Grid, x: int, y: int, w: nat): (ns: seq<Cell>)
    ensures |ns| == 3
  {
    var atC := if (x + w, y - 1) in g then (x + w, y - 1) else (x - 1, y - 1);
    var a := Candidate(g, x - 1, y);
    if (x - 1, y) in g && (x, y - 1) !in g && atC !in g then [a, a, a]
    else [a, Candidate(g, x, y - 1), Candidate(g, atC.0, atC.1)]
  }

  function WithRef(ns: seq<Cell>, r: int): seq<Cell> {
    if |ns| == 0 then []
    else if ns[0].ref == r then [ns[0]] + WithRef(ns[1..], r)
    else WithRef(ns[1..], r)
  }

  /** Median luma prediction: the one neighbour with the same reference, else the median. */
  function Predicted(g: Grid, x: int, y: int, w: nat, r: int): Mv {
    var ns := Neighbours(g, x, y, w);
    var same := WithRef(ns, r);
    if |same| == 1 then same[0].mv
    else (Median(ns[0].mv.0, ns[1].mv.0, ns[2].mv.0), Median(ns[0].mv.1, ns[1].mv.1, ns[2].mv.1))
  }

  /** The motion vector a P_Skip macroblock infers (8.4.1.1). */
  function Skipped(g: Grid, x: int, y: int): Mv {
    if (x - 1, y) in g && (x, y - 1) in g
       && g[(x - 1, y)] != Cell(0, (0, 0)) && g[(x, y - 1)] != Cell(0, (0, 0))
    then Predicted(g, x, y, 4, 0) else (0, 0)
  }

  /** A neighbour is what was written there last, and nothing else changes. */
  lemma NeighbourIsWritten(g: Grid, x: int, y: int, w: nat, h: nat, c: Cell, i: int, j: int)
    ensures x <= i < x + w && y <= j < y + h ==> Nb(SetBlk(g, x, y, w, h, c), i, j) == Neighbour(true, c.ref, c.mv)
    ensures !(x <= i < x + w && y <= j < y + h) ==> Nb(SetBlk(g, x, y, w, h, c), i, j) == Nb(g, i, j)
    ensures Nb(map[], i, j) == Neighbour(false, -1, (0, 0))
  {
  }

  lemma NeighbourIsCandidate(g: Grid, x: int, y: int)
    ensures var n := Nb(g, x, y); n.available == ((x, y) in g) && Cell(n.ref, n.mv) == Candidate(g, x, y)
  {
  }

  /** Two macroblocks side by side with one vector: the second is predicted exactly, in its own
      components. */
  lemma SameVectorIsPredicted(mv: Mv)
    ensures Mvp(SetBlk(map[], 0, 0, 4, 4, Cell(0, mv)), 4, 0, 4, 0) == mv
  {
    var g := SetBlk(map[], 0, 0, 4, 4, Cell(0, mv));
    NeighbourIsWritten(map[], 0, 0, 4, 4, Cell(0, mv), 3, 0);
    NeighbourIsWritten(map[], 0, 0, 4, 4, Cell(0, mv), 4, -1);
    NeighbourIsWritten(map[], 0, 0, 4, 4, Cell(0, mv), 8, -1);
    NeighbourIsWritten(map[], 0, 0, 4, 4, Cell(0, mv), 3, -1);
  }

  lemma MedIsMedian(a: int, b: int, c: int)
    ensures Med(a, b, c) == Median(a, b, c)
  {
  }

  lemma WithRefThree(a: Cell, b: Cell, c: Cell, r: int)
    ensures |WithRef([a, b, c], r)| == Count(a.ref == r) + Count(b.ref == r) + Count(c.ref == r)
    ensures a.ref == r ==> WithRef([a, b, c], r)[0] == a
    ensures a.ref != r && b.ref == r ==> WithRef([a, b, c], r)[0] == b
    ensures a.ref != r && b.ref != r && c.ref == r ==> WithRef([a, b, c], r)[0] == c
  {
    assert [a, b, c][1..] == [b, c];
    assert [b, c][1..] == [c];
    assert [c][1..] == [];
    assert WithRef([c], r) == if c.ref == r then [c] else [];
    assert WithRef([b, c], r) == (if b.ref == r then [b] else []) + WithRef([c], r);
  }

  /** The generator predicts what a conforming decoder predicts, at every block of every grid. */
  lemma MvpIsStandard(g: Grid, x: int, y: int, w: nat, r: int)
    ensures Mvp(g, x, y, w, r) == Predicted(g, x, y, w, r)
  {
    hide Nb, Candidate, WithRef, Med, Median;
    NeighbourIsCandidate(g, x - 1, y);
    NeighbourIsCandidate(g, x, y - 1);
    NeighbourIsCandidate(g, x + w, y - 1);
    NeighbourIsCandidate(g, x - 1, y - 1);
    var ns := Neighbours(g, x, y, w);
    assert ns == [ns[0], ns[1], ns[2]];
    WithRefThree(ns[0], ns[1], ns[2], r);
    MedIsMedian(ns[0].mv.0, ns[1].mv.0, ns[2].mv.0);
    MedIsMedian(ns[0].mv.1, ns[1].mv.1, ns[2].mv.1);
  }

  lemma PskipIsStandard(g: Grid, x: int, y: int)
    ensures PskipMv(g, x, y) == Skipped(g, x, y)
  {
    hide Mvp, Predicted;
    MvpIsStandard(g, x, y, 4, 0);
  }
}
