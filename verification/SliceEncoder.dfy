/** The macroblock loop of the generator, with its bit writer and its neighbour arrays. */
module SliceEncoder {
  import opened Wrappers
  import opened Bits
  import opened ExpGolomb
  import opened BitWriter
  import opened MotionVectors
  import opened Macroblocks
  import opened SliceSyntax
  import opened SliceDecoder
  import opened SliceRoundTrip
  import opened Nal

  const MAX_MB := 4096

  /** Truncation to a signed 16-bit and a signed 8-bit integer. */
  function I16(v: int): int { (v + 0x8000) % 0x1_0000 - 0x8000 }
  function I8(v: int): int { (v + 0x80) % 0x100 - 0x80 }

  ghost predicate GridInRange(g: Grid) {
    forall k :: k in g ==> InRange(g[k].mv)
  }

  lemma CombineInRange(a: Neighbour, b: Neighbour, c: Neighbour, r: int)
    requires InRange(a.mv) && InRange(b.mv) && InRange(c.mv)
    ensures InRange(Combine(a, b, c, r))
  {
  }

  lemma SetBlkEmpty(g: Grid, x: int, y: int, w: nat, h: nat, c: Cell)
    requires w == 0 || h == 0
    ensures SetBlk(g, x, y, w, h, c) == g
  {
    hide Block;
  }

  lemma SetBlkCell(g: Grid, x: int, y: int, w: nat, c: Cell)
    ensures SetBlk(g, x, y, w, 1, c)[(x + w, y) := c] == SetBlk(g, x, y, w + 1, 1, c)
  {
    hide Block;
  }

  lemma SetBlkRow(g: Grid, x: int, y: int, w: nat, h: nat, c: Cell)
    ensures SetBlk(SetBlk(g, x, y, w, h, c), x, y + h, w, 1, c) == SetBlk(g, x, y, w, h + 1, c)
  {
    hide Block;
  }

  /** The block at index k of the flat arrays. */
  function CellOf(w4: nat, k: nat): (int, int) { if w4 == 0 then (0, 0) else (k % w4, k / w4) }

  lemma CellAt(w4: nat, h4: nat, x: nat, y: nat)
    requires x < w4 && y < h4
    ensures 0 <= y * w4 + x < w4 * h4 && CellOf(w4, y * w4 + x) == (x, y)
  {
    MulAtLeast(h4 - y, w4);
    assert (h4 - y) * w4 == w4 * h4 - y * w4;
    DivUnique(y * w4 + x, w4, y, x);
  }

  lemma IndexOf(w4: nat, k: nat)
    requires w4 > 0
    ensures k == CellOf(w4, k).1 * w4 + CellOf(w4, k).0
  {
    DivMod(k, w4);
  }

  /** sref, smv and sdone: what each 4x4 block leaves for its neighbours. */
  class MvState {
    const w4: nat
    const h4: nat
    const sref: array<int>
    const smv: array<Mv>
    const sdone: array<bool>
    ghost var g: Grid   // the blocks marked done, and what they hold

    ghost predicate Valid()
      reads this, sref, smv, sdone
    {
      && sref.Length == smv.Length == sdone.Length == w4 * h4
      && (forall x, y :: (x, y) in g ==> 0 <= x < w4 && 0 <= y < h4)
      && (forall k :: 0 <= k < sdone.Length ==>
            && (sdone[k] <==> CellOf(w4, k) in g)
            && (sdone[k] ==> g[CellOf(w4, k)] == Cell(sref[k], smv[k])))
      && GridInRange(g)
    }

    constructor (w4: nat, h4: nat)
      ensures Valid() && this.w4 == w4 && this.h4 == h4 && g == map[]
      ensures fresh(sref) && fresh(smv) && fresh(sdone)
    {
      this.w4, this.h4 := w4, h4;
      sref := new int[w4 * h4];
      smv := new Mv[w4 * h4](_ => (0, 0));
      sdone := new bool[w4 * h4](_ => false);
      g := map[];
    }

    /** memset(sdone, 0): stale references and vectors stay behind, unavailable. */
    method Clear()
      requires Valid()
      modifies this, sdone
      ensures Valid() && g == map[]
    {
      forall k | 0 <= k < sdone.Length { sdone[k] := false; }
      g := map[];
    }

    /** nb */
    method Lookup(x: int, y: int) returns (n: Neighbour)
      requires Valid()
      ensures n == Nb(g, x, y) && InRange(n.mv)
      ensures (x, y) in g ==> n.available && n.ref == g[(x, y)].ref && n.mv == g[(x, y)].mv
      ensures (x, y) !in g ==> !n.available && n.ref == -1 && n.mv == (0, 0)
    {
      hide CellOf;
      if 0 <= x < w4 && 0 <= y < h4 { CellAt(w4, h4, x, y); }
      if x < 0 || y < 0 || x >= w4 || y >= h4 || !sdone[y * w4 + x] {
        n := Neighbour(false, -1, (0, 0));
      } else {
        var i := y * w4 + x;
        n := Neighbour(true, sref[i], smv[i]);
      }
    }

    /** mvp */
    method Predict(x: int, y: int, w: nat, r: int) returns (p: Mv)
      requires Valid()
      ensures p == Mvp(g, x, y, w, r) && InRange(p)
    {
      hide Valid;
      var a := Lookup(x - 1, y);
      var b := Lookup(x, y - 1);
      var c := Lookup(x + w, y - 1);
      if !c.available { c := Lookup(x - 1, y - 1); }
      CombineInRange(a, b, c, r);
      if !b.available && !c.available && a.available { b, c := a, a; }
      if Count(a.ref == r) + Count(b.ref == r) + Count(c.ref == r) == 1 {
        p := if a.ref == r then a.mv else if b.ref == r then b.mv else c.mv;
      } else {
        p := (Med(a.mv.0, b.mv.0, c.mv.0), Med(a.mv.1, b.mv.1, c.mv.1));
      }
    }

    /** pskip_mv */
    method PredictSkip(x: int, y: int) returns (p: Mv)
      requires Valid()
      ensures p == PskipMv(g, x, y)
    {
      var a := Lookup(x - 1, y);
      var b := Lookup(x, y - 1);
      if !a.available || !b.available || (a.ref == 0 && a.mv == (0, 0)) || (b.ref == 0 && b.mv == (0, 0)) {
        p := (0, 0);
      } else {
        p := Predict(x, y, 4, 0);
      }
    }

    /** References are kept in 8 bits and vectors in 16. */
    method SetCell(x: nat, y: nat, r: int, mv: Mv)
      requires Valid() && x < w4 && y < h4
      requires -1 <= r < MAX_REF && InRange(mv)
      modifies this, sref, smv, sdone
      ensures Valid() && g == old(g)[(x, y) := Cell(r, mv)]
    {
      hide CellOf;
      CellAt(w4, h4, x, y);
      var k := y * w4 + x;
      forall i | 0 <= i < sdone.Length && CellOf(w4, i) == (x as int, y as int) ensures i == k { IndexOf(w4, i); }
      sref[k], smv[k], sdone[k] := I8(r), (I16(mv.0), I16(mv.1)), true;
      g := g[(x, y) := Cell(r, mv)];
    }

    /** setblk, and setmb with w = h = 4. */
    method Set(x: nat, y: nat, w: nat, h: nat, r: int, mv: Mv)
      requires Valid() && x + w <= w4 && y + h <= h4
      requires -1 <= r < MAX_REF && InRange(mv)
      modifies this, sref, smv, sdone
      ensures Valid() && g == SetBlk(old(g), x, y, w, h, Cell(r, mv))
      ensures forall i: int, j: int :: Nb(g, i, j) == if x <= i < x + w && y <= j < y + h then Neighbour(true, r, mv) else Nb(old(g), i, j)
    {
      hide Valid, SetBlk, Nb;
      var j := y;
      SetBlkEmpty(g, x, y, w, 0, Cell(r, mv));
      while j < y + h
        invariant y <= j <= y + h
        invariant Valid() && g == SetBlk(old(g), x, y, w, j - y, Cell(r, mv))
      {
        var i := x;
        ghost var row := g;
        SetBlkEmpty(g, x, j, 0, 1, Cell(r, mv));
        while i < x + w
          invariant x <= i <= x + w
          invariant Valid() && g == SetBlk(row, x, j, i - x, 1, Cell(r, mv))
        {
          SetBlkCell(row, x, j, i - x, Cell(r, mv));
          SetCell(i, j, r, mv);
          i := i + 1;
        }
        SetBlkRow(old(g), x, y, w, j - y, Cell(r, mv));
        j := j + 1;
      }
      forall i: int, j: int
        ensures Nb(g, i, j) == if x <= i < x + w && y <= j < y + h then Neighbour(true, r, mv) else Nb(old(g), i, j)
      {
        NeighbourIsWritten(old(g), x, y, w, h, Cell(r, mv), i, j);
      }
    }

    /** A vector, coded as the difference from its prediction, then stored. */
    method PutMv(b: BW, x: nat, y: nat, w: nat, r: nat, mv: Mv)
      requires Valid() && b.Valid() && x + w <= w4 && y + w <= h4 && r < MAX_REF && InRange(mv)
      modifies this, sref, smv, sdone, b
      ensures Valid() && b.Valid()
      ensures b.Contents() == old(b.Contents()) + MvBits(old(g), x, y, w, r, mv)
      ensures g == SetBlk(old(g), x, y, w, w, Cell(r, mv))
    {
      hide SeBits, SetBlk, Mvp, Valid;
      var p := Predict(x, y, w, r);
      b.PutSe(mv.0 - p.0);
      b.PutSe(mv.1 - p.1);
      assert b.Contents() == old(b.Contents()) + MvBits(old(g), x, y, w, r, mv);
      Set(x, y, w, w, r, mv);
    }
  }

  // ---------------------------------------------------------------- macroblocks

  /** Room for a whole macroblock at (x4, y4). */
  ghost predicate Fits(st: MvState, x4: nat, y4: nat) { x4 + 4 <= st.w4 && y4 + 4 <= st.h4 }

  method PutSplit(b: BW, st: MvState, qx: nat, qy: nat, r: nat, mvs: seq<Mv>) returns (parts: seq<Part>)
    requires st.Valid() && b.Valid() && qx + 2 <= st.w4 && qy + 2 <= st.h4
    requires r < MAX_REF && |mvs| == 4 && forall i :: 0 <= i < 4 ==> InRange(mvs[i])
    modifies b, st, st.sref, st.smv, st.sdone
    ensures st.Valid() && b.Valid()
    ensures b.Contents() == old(b.Contents()) + SplitBits(old(st.g), qx, qy, r, mvs, 0)
    ensures st.g == SplitGrid(old(st.g), qx, qy, r, mvs, 0)
    ensures parts == SplitParts(qx, qy, r, mvs, 0)
  {
    hide MvBits, SetBlk, SplitBits, SplitGrid, SplitParts, MvState.Valid, BW.Contents, BW.Valid;
    parts := [];
    ghost var start := b.Contents();
    ghost var g0 := st.g;
    for i := 0 to 4
      invariant st.Valid() && b.Valid()
      invariant b.Contents() + SplitBits(st.g, qx, qy, r, mvs, i) == start + SplitBits(g0, qx, qy, r, mvs, 0)
      invariant SplitGrid(st.g, qx, qy, r, mvs, i) == SplitGrid(g0, qx, qy, r, mvs, 0)
      invariant parts + SplitParts(qx, qy, r, mvs, i) == SplitParts(qx, qy, r, mvs, 0)
    {
      var x, y := qx + i % 2, qy + i / 2;
      SplitStep(b.Contents(), parts, st.g, qx, qy, r, mvs, i);
      st.PutMv(b, x, y, 1, r, mvs[i]);
      parts := parts + [Part(4 * x, 4 * y, 4, 4, r, mvs[i])];
    }
    SplitEnd(b.Contents(), parts, st.g, qx, qy, r, mvs);
  }

  lemma SplitStep(c: seq<bool>, ps: seq<Part>, g: Grid, qx: int, qy: int, r: nat, mvs: seq<Mv>, i: nat)
    requires i < 4 && |mvs| == 4
    ensures var x, y := qx + i % 2, qy + i / 2;
            var g' := SetBlk(g, x, y, 1, 1, Cell(r, mvs[i]));
            && c + SplitBits(g, qx, qy, r, mvs, i)
               == (c + MvBits(g, x, y, 1, r, mvs[i])) + SplitBits(g', qx, qy, r, mvs, i + 1)
            && SplitGrid(g, qx, qy, r, mvs, i) == SplitGrid(g', qx, qy, r, mvs, i + 1)
            && ps + SplitParts(qx, qy, r, mvs, i)
               == (ps + [Part(4 * x, 4 * y, 4, 4, r, mvs[i])]) + SplitParts(qx, qy, r, mvs, i + 1)
  {
    hide MvBits, SetBlk, SplitBits, SplitGrid, SplitParts;
    var x, y := qx + i % 2, qy + i / 2;
    var g' := SetBlk(g, x, y, 1, 1, Cell(r, mvs[i]));
    SplitOne(g, qx, qy, r, mvs, i);
    Associative(c, MvBits(g, x, y, 1, r, mvs[i]), SplitBits(g', qx, qy, r, mvs, i + 1));
    Associative(ps, [Part(4 * x, 4 * y, 4, 4, r, mvs[i])], SplitParts(qx, qy, r, mvs, i + 1));
  }

  lemma SplitOne(g: Grid, qx: int, qy: int, r: nat, mvs: seq<Mv>, i: nat)
    requires i < 4 && |mvs| == 4
    ensures var x, y := qx + i % 2, qy + i / 2;
            var g' := SetBlk(g, x, y, 1, 1, Cell(r, mvs[i]));
            && SplitBits(g, qx, qy, r, mvs, i) == MvBits(g, x, y, 1, r, mvs[i]) + SplitBits(g', qx, qy, r, mvs, i + 1)
            && SplitGrid(g, qx, qy, r, mvs, i) == SplitGrid(g', qx, qy, r, mvs, i + 1)
            && SplitParts(qx, qy, r, mvs, i) == [Part(4 * x, 4 * y, 4, 4, r, mvs[i])] + SplitParts(qx, qy, r, mvs, i + 1)
  {
    hide MvBits, SetBlk;
  }

  lemma SplitEnd(c: seq<bool>, ps: seq<Part>, g: Grid, qx: int, qy: int, r: nat, mvs: seq<Mv>)
    requires |mvs| == 4
    ensures c + SplitBits(g, qx, qy, r, mvs, 4) == c && SplitGrid(g, qx, qy, r, mvs, 4) == g
    ensures ps + SplitParts(qx, qy, r, mvs, 4) == ps
  {
  }

  lemma SubsStep(c: seq<bool>, ps: seq<Part>, g: Grid, x4: int, y4: int, nref: nat, subs: seq<Sub>, i: nat)
    requires i < 4 && ValidSubs(subs, nref)
    ensures subs[i].Split? ==> |subs[i].mvs| == 4
    ensures var x, y := x4 + (i % 2) * 2, y4 + (i / 2) * 2;
            var g' := SubGrid(g, x, y, subs[i]);
            && c + SubsBits(g, x4, y4, nref, subs, i)
               == (c + SubBits(g, x, y, subs[i])) + SubsBits(g', x4, y4, nref, subs, i + 1)
            && SubsGrid(g, x4, y4, nref, subs, i) == SubsGrid(g', x4, y4, nref, subs, i + 1)
            && ps + SubsParts(x4, y4, nref, subs, i)
               == (ps + SubParts(x, y, subs[i])) + SubsParts(x4, y4, nref, subs, i + 1)
  {
    hide SubBits, SubGrid, SubParts, SubsBits, SubsGrid, SubsParts;
    assert ValidSub(subs[i], nref);
    SubsOne(g, x4, y4, nref, subs, i);
    var x, y := x4 + (i % 2) * 2, y4 + (i / 2) * 2;
    var g' := SubGrid(g, x, y, subs[i]);
    Associative(c, SubBits(g, x, y, subs[i]), SubsBits(g', x4, y4, nref, subs, i + 1));
    Associative(ps, SubParts(x, y, subs[i]), SubsParts(x4, y4, nref, subs, i + 1));
  }

  lemma SubsOne(g: Grid, x4: int, y4: int, nref: nat, subs: seq<Sub>, i: nat)
    requires i < 4 && ValidSubs(subs, nref) && ValidSub(subs[i], nref)
    ensures var x, y := x4 + (i % 2) * 2, y4 + (i / 2) * 2;
            var g' := SubGrid(g, x, y, subs[i]);
            && SubsBits(g, x4, y4, nref, subs, i) == SubBits(g, x, y, subs[i]) + SubsBits(g', x4, y4, nref, subs, i + 1)
            && SubsGrid(g, x4, y4, nref, subs, i) == SubsGrid(g', x4, y4, nref, subs, i + 1)
            && SubsParts(x4, y4, nref, subs, i) == SubParts(x, y, subs[i]) + SubsParts(x4, y4, nref, subs, i + 1)
  {
    hide SubBits, SubGrid, SubParts;
  }

  lemma SubsEnd(c: seq<bool>, ps: seq<Part>, g: Grid, x4: int, y4: int, nref: nat, subs: seq<Sub>)
    requires ValidSubs(subs, nref)
    ensures c + SubsBits(g, x4, y4, nref, subs, 4) == c && SubsGrid(g, x4, y4, nref, subs, 4) == g
    ensures ps + SubsParts(x4, y4, nref, subs, 4) == ps
  {
  }

  method PutSub(b: BW, st: MvState, qx: nat, qy: nat, s: Sub) returns (parts: seq<Part>)
    requires st.Valid() && b.Valid() && qx + 2 <= st.w4 && qy + 2 <= st.h4
    requires ValidSub(s, MAX_REF)
    modifies b, st, st.sref, st.smv, st.sdone
    ensures st.Valid() && b.Valid()
    ensures b.Contents() == old(b.Contents()) + SubBits(old(st.g), qx, qy, s)
    ensures st.g == SubGrid(old(st.g), qx, qy, s)
    ensures parts == SubParts(qx, qy, s)
  {
    hide MvBits, SetBlk, SplitBits, SplitGrid, SplitParts, MvState.Valid, BW.Contents, BW.Valid;
    match s {
      case Whole(r, mv) =>
        st.PutMv(b, qx, qy, 2, r, mv);
        parts := [Part(4 * qx, 4 * qy, 8, 8, r, mv)];
      case Split(r, mvs) =>
        parts := PutSplit(b, st, qx, qy, r, mvs);
    }
  }

  method PutTypesAndRefs(b: BW, nref: nat, subs: seq<Sub>)
    requires b.Valid() && nref <= MAX_REF && ValidSubs(subs, nref)
    modifies b
    ensures b.Valid() && b.Contents() == old(b.Contents()) + TypesBits(subs) + RefsBits(nref, subs)
  {
    hide UeBits, TeBits, BW.Contents, BW.Valid;
    ghost var start := b.Contents();
    assert subs[0..] == subs;
    for i := 0 to 4
      invariant b.Valid() && b.Contents() + TypesBits(subs[i..]) == start + TypesBits(subs)
    {
      assert subs[i..][0] == subs[i] && subs[i..][1..] == subs[i + 1..];
      Associative(b.Contents(), UeBits(SubType(subs[i])), TypesBits(subs[i + 1..]));
      b.PutUe(if subs[i].Whole? then 0 else 3);
    }
    assert b.Contents() + [] == b.Contents();
    ghost var mid := b.Contents();
    for i := 0 to 4
      invariant b.Valid() && b.Contents() + RefsBits(nref, subs[i..]) == mid + RefsBits(nref, subs)
    {
      assert subs[i..][0] == subs[i] && subs[i..][1..] == subs[i + 1..];
      assert ValidSub(subs[i], nref);
      Associative(b.Contents(), TeBits(nref, subs[i].ref), RefsBits(nref, subs[i + 1..]));
      b.PutTe(nref, subs[i].ref);
    }
    assert b.Contents() + [] == b.Contents();
  }

  method PutSubs(b: BW, st: MvState, x4: nat, y4: nat, nref: nat, subs: seq<Sub>) returns (parts: seq<Part>)
    requires st.Valid() && b.Valid() && Fits(st, x4, y4) && nref <= MAX_REF && ValidSubs(subs, nref)
    modifies b, st, st.sref, st.smv, st.sdone
    ensures st.Valid() && b.Valid()
    ensures b.Contents() == old(b.Contents()) + SubsBits(old(st.g), x4, y4, nref, subs, 0)
    ensures st.g == SubsGrid(old(st.g), x4, y4, nref, subs, 0)
    ensures parts == SubsParts(x4, y4, nref, subs, 0)
  {
    hide SubBits, SubGrid, SubParts, SubsBits, SubsGrid, SubsParts, MvState.Valid, BW.Contents, BW.Valid;
    parts := [];
    ghost var start := b.Contents();
    ghost var g0 := st.g;
    for i := 0 to 4
      invariant st.Valid() && b.Valid()
      invariant b.Contents() + SubsBits(st.g, x4, y4, nref, subs, i) == start + SubsBits(g0, x4, y4, nref, subs, 0)
      invariant SubsGrid(st.g, x4, y4, nref, subs, i) == SubsGrid(g0, x4, y4, nref, subs, 0)
      invariant parts + SubsParts(x4, y4, nref, subs, i) == SubsParts(x4, y4, nref, subs, 0)
    {
      assert ValidSub(subs[i], nref);
      var qx, qy := x4 + (i % 2) * 2, y4 + (i / 2) * 2;
      SubsStep(b.Contents(), parts, st.g, x4, y4, nref, subs, i);
      var ps := PutSub(b, st, qx, qy, subs[i]);
      parts := parts + ps;
    }
    SubsEnd(b.Contents(), parts, st.g, x4, y4, nref, subs);
  }

  /** One macroblock layer, written and recorded. */
  method PutMb(b: BW, st: MvState, x4: nat, y4: nat, nref: nat, d: Decision) returns (rec: Record)
    requires st.Valid() && b.Valid() && Fits(st, x4, y4) && 0 < nref <= MAX_REF && Valid(d, nref)
    modifies b, st, st.sref, st.smv, st.sdone
    ensures st.Valid() && b.Valid()
    ensures b.Contents() == old(b.Contents()) + MbBits(old(st.g), x4, y4, nref, d, |old(b.Contents())|)
    ensures st.g == MbGrid(old(st.g), x4, y4, nref, d)
    ensures rec == RecordOf(x4, y4, nref, d)
  {
    hide UeBits, TeBits, MvBits, SetBlk, SubsBits, SubsGrid, SubsParts, TypesBits, RefsBits, BytesToBits, Zeros,
         Padding, MvState.Valid, BW.Contents, BW.Valid;
    match d {
      case Pcm(samples) =>
        b.PutUe(I_PCM_IN_P);
        b.Align();
        b.PutBytes(samples);
        st.Set(x4, y4, 4, 4, -1, (0, 0));
        rec := Record([Part(4 * x4, 4 * y4, 16, 16, -1, (0, 0))], samples);
      case Background =>
        rec := PutInter16(b, st, x4, y4, nref, 0, (0, 0));
      case Inter16(r, mv) =>
        rec := PutInter16(b, st, x4, y4, nref, r, mv);
      case Inter8(subs) =>
        b.PutUe(3);
        PutTypesAndRefs(b, nref, subs);
        var parts := PutSubs(b, st, x4, y4, nref, subs);
        b.PutUe(0);
        rec := Record(parts, []);
        assert b.Contents() == old(b.Contents()) + Inter8Bits(old(st.g), x4, y4, nref, subs);
    }
  }

  method PutInter16(b: BW, st: MvState, x4: nat, y4: nat, nref: nat, r: nat, mv: Mv) returns (rec: Record)
    requires st.Valid() && b.Valid() && Fits(st, x4, y4) && r < nref <= MAX_REF && InRange(mv)
    modifies b, st, st.sref, st.smv, st.sdone
    ensures st.Valid() && b.Valid()
    ensures b.Contents() == old(b.Contents()) + Inter16Bits(old(st.g), x4, y4, nref, r, mv)
    ensures st.g == SetBlk(old(st.g), x4, y4, 4, 4, Cell(r, mv))
    ensures rec == Record([Part(4 * x4, 4 * y4, 16, 16, r, mv)], [])
  {
    hide UeBits, TeBits, MvBits, SetBlk, MvState.Valid, BW.Contents, BW.Valid;
    b.PutUe(0);
    b.PutTe(nref, r);
    st.PutMv(b, x4, y4, 4, r, mv);
    b.PutUe(0);
    rec := Record([Part(4 * x4, 4 * y4, 16, 16, r, mv)], []);
    assert b.Contents() == old(b.Contents()) + Inter16Bits(old(st.g), x4, y4, nref, r, mv);
  }

  // ---------------------------------------------------------------- the slice

  /** All partitions, in the order they were appended. */
  function AllParts(rs: seq<Record>): seq<Part> {
    if |rs| == 0 then [] else AllParts(rs[..|rs| - 1]) + rs[|rs| - 1].parts
  }

  lemma MbAt(wmb: nat, my: nat, mx: nat)
    requires mx < wmb
    ensures MbX(wmb, my * wmb + mx) == 4 * mx && MbY(wmb, my * wmb + mx) == 4 * my
  {
    DivUnique(my * wmb + mx, wmb, my, mx);
  }

  lemma RowEnd(wmb: nat, hmb: nat, my: nat, mx: nat)
    requires my < hmb && mx < wmb
    ensures my * wmb + mx < wmb * hmb
  {
    MulAtLeast(hmb - my, wmb);
    assert (hmb - my) * wmb == hmb * wmb - my * wmb;
  }

  /** What one step of the macroblock loop does to the slice data still to come. */
  lemma EncodeStep(c: seq<bool>, ds: seq<Decision>, wmb: nat, nref: nat, m: nat, g: Grid, skip: nat)
    requires wmb > 0 && m < |ds| && AllValid(ds, nref)
    ensures var x4, y4, d := MbX(wmb, m), MbY(wmb, m), ds[m];
            var g' := MbGrid(g, x4, y4, nref, d);
            if IsSkipped(g, x4, y4, d) then
              EncodeFrom(ds, wmb, nref, m, g, skip, |c|) == EncodeFrom(ds, wmb, nref, m + 1, g', skip + 1, |c|)
            else
              var c1 := c + UeBits(skip);
              var c2 := c1 + MbBits(g, x4, y4, nref, d, |c1|);
              c + EncodeFrom(ds, wmb, nref, m, g, skip, |c|)
              == c2 + EncodeFrom(ds, wmb, nref, m + 1, g', 0, |c2|)
  {
    hide UeBits, MbBits, MbGrid, IsSkipped, MbX, MbY;
  }

  /** `c` written and `skip` pending, macroblocks from `m` on are what is missing from `all`. */
  ghost predicate Remaining(all: seq<bool>, c: seq<bool>, ds: seq<Decision>, wmb: nat, nref: nat, m: nat, g: Grid, skip: nat)
  {
    && wmb > 0 && m <= |ds| && AllValid(ds, nref) && skip <= m
    && c + EncodeFrom(ds, wmb, nref, m, g, skip, |c|) == all
  }

  /** The I_PCM samples of the first `m` macroblocks. */
  function PcmOf(ds: seq<Decision>, m: nat): map<nat, seq<byte>>
    requires m <= |ds|
  {
    map k: nat | k < m && ds[k].Pcm? :: ds[k].samples
  }

  /** One macroblock of the loop: extend the run of skipped ones, or write it. */
  method EncodeMb(b: BW, st: MvState, ds: seq<Decision>, wmb: nat, nref: nat, my: nat, mx: nat, skip: nat, ghost all: seq<bool>)
    returns (skip': nat, rec: Record)
    requires b.Valid() && st.Valid() && mx < wmb && 4 * mx + 4 <= st.w4 && 4 * my + 4 <= st.h4
    requires 0 < nref <= MAX_REF && my * wmb + mx < |ds| <= MAX_MB
    requires Remaining(all, b.Contents(), ds, wmb, nref, my * wmb + mx, st.g, skip)
    modifies b, st, st.sref, st.smv, st.sdone
    ensures b.Valid() && st.Valid()
    ensures Remaining(all, b.Contents(), ds, wmb, nref, my * wmb + mx + 1, st.g, skip')
    ensures rec == RecordAt(ds, wmb, nref, my * wmb + mx)
  {
    hide UeBits, EncodeFrom, MbBits, MbGrid, IsSkipped, MbX, MbY, RecordOf, SetBlk,
         MvState.Valid, BW.Contents, BW.Valid, PskipMv;
    var m, x4, y4 := my * wmb + mx, 4 * mx, 4 * my;
    MbAt(wmb, my, mx);
    EncodeStep(b.Contents(), ds, wmb, nref, m, st.g, skip);
    var p := (1, 1);
    if ds[m].Background? { p := st.PredictSkip(x4, y4); }
    SkipTest(st.g, x4, y4, ds[m], p);
    if p == (0, 0) {
      rec := Record([Part(4 * x4, 4 * y4, 16, 16, 0, (0, 0))], []);
      BackgroundMb(st.g, x4, y4, nref);
      st.Set(x4, y4, 4, 4, 0, (0, 0));
      skip' := skip + 1;
    } else {
      b.PutUe(skip);
      skip' := 0;
      rec := PutMb(b, st, x4, y4, nref, ds[m]);
    }
  }

  /** The macroblock loop of encode_frame, after the slice header: writes the slice data and
      the trailing bits, records every partition, and keeps the I_PCM samples by macroblock. */
  method EncodeSlice(b: BW, st: MvState, ds: seq<Decision>, wmb: nat, hmb: nat, nref: nat)
    returns (parts: seq<Part>, pcm: map<nat, seq<byte>>)
    requires b.Valid() && st.Valid() && st.w4 == 4 * wmb && st.h4 == 4 * hmb
    requires wmb > 0 && |ds| == wmb * hmb <= MAX_MB && 0 < nref <= MAX_REF && AllValid(ds, nref)
    modifies b, st, st.sref, st.smv, st.sdone
    ensures b.Valid() && st.Valid() && b.Contents() == BytesToBits(b.buf)
    ensures b.Contents() == SliceRbsp(old(b.Contents()), ds, wmb, nref)
    ensures parts == AllParts(Records(ds, wmb, nref, 0, |ds|))
    ensures pcm == PcmOf(ds, |ds|)
  {
    hide EncodeFrom, Records, RecordAt, AllParts, MvState.Valid, BW.Contents, BW.Valid, BytesToBits, PcmOf,
         Remaining, AllValid;
    ghost var header := b.Contents();
    ghost var all := header + EncodeFrom(ds, wmb, nref, 0, map[], 0, |header|);
    st.Clear();
    var skip, my, m := 0, 0, 0;
    parts, pcm := [], map[];
    AtStart(header, ds, wmb, nref);
    while my < hmb
      invariant 0 <= my <= hmb && m == my * wmb <= |ds|
      invariant b.Valid() && st.Valid() && Remaining(all, b.Contents(), ds, wmb, nref, m, st.g, skip)
      invariant parts == AllParts(Records(ds, wmb, nref, 0, m)) && pcm == PcmOf(ds, m)
    {
      var mx := 0;
      while mx < wmb
        invariant 0 <= mx <= wmb && m == my * wmb + mx <= |ds|
        invariant b.Valid() && st.Valid() && Remaining(all, b.Contents(), ds, wmb, nref, m, st.g, skip)
        invariant parts == AllParts(Records(ds, wmb, nref, 0, m)) && pcm == PcmOf(ds, m)
      {
        RowEnd(wmb, hmb, my, mx);
        RecordsGrow(ds, wmb, nref, m);
        PcmGrow(ds, m);
        var rec;
        skip, rec := EncodeMb(b, st, ds, wmb, nref, my, mx, skip, all);
        parts := parts + rec.parts;
        if ds[m].Pcm? { pcm := pcm[m := ds[m].samples]; }
        mx, m := mx + 1, m + 1;
      }
      assert (my + 1) * wmb == my * wmb + wmb;
      my := my + 1;
    }
    assert m == |ds| by { assert my == hmb; }
    EncodeEnd(all, b.Contents(), ds, wmb, nref, st.g, skip);
    if skip > 0 { b.PutUe(skip); }
    b.PutTrailing();
  }

  lemma AtStart(header: seq<bool>, ds: seq<Decision>, wmb: nat, nref: nat)
    requires wmb > 0 && AllValid(ds, nref)
    ensures Remaining(header + EncodeFrom(ds, wmb, nref, 0, map[], 0, |header|), header, ds, wmb, nref, 0, map[], 0)
    ensures AllParts(Records(ds, wmb, nref, 0, 0)) == [] && PcmOf(ds, 0) == map[]
  {
    hide EncodeFrom;
  }

  lemma PcmGrow(ds: seq<Decision>, m: nat)
    requires m < |ds|
    ensures PcmOf(ds, m + 1) == if ds[m].Pcm? then PcmOf(ds, m)[m := ds[m].samples] else PcmOf(ds, m)
  {
  }

  lemma RecordsGrow(ds: seq<Decision>, wmb: nat, nref: nat, m: nat)
    requires wmb > 0 && AllValid(ds, nref) && m < |ds|
    ensures AllParts(Records(ds, wmb, nref, 0, m + 1))
         == AllParts(Records(ds, wmb, nref, 0, m)) + RecordAt(ds, wmb, nref, m).parts
  {
  }

  lemma SkipTest(g: Grid, x4: int, y4: int, d: Decision, p: Mv)
    requires p == if d.Background? then PskipMv(g, x4, y4) else (1, 1)
    ensures p == (0, 0) <==> IsSkipped(g, x4, y4, d)
  {
    hide PskipMv;
  }

  lemma BackgroundMb(g: Grid, x4: int, y4: int, nref: nat)
    ensures MbGrid(g, x4, y4, nref, Background) == SetBlk(g, x4, y4, 4, 4, Cell(0, (0, 0)))
    ensures RecordOf(x4, y4, nref, Background) == Record([Part(4 * x4, 4 * y4, 16, 16, 0, (0, 0))], [])
  {
  }

  lemma EncodeEnd(all: seq<bool>, c: seq<bool>, ds: seq<Decision>, wmb: nat, nref: nat, g: Grid, skip: nat)
    requires Remaining(all, c, ds, wmb, nref, |ds|, g, skip)
    ensures all == (if skip > 0 then c + UeBits(skip) else c) && skip <= |ds|
  {
    hide UeBits;
  }

  // ---------------------------------------------------------------- end to end

  /** A rendered picture as one NAL unit: slice header, macroblocks, trailing bits, escapes.
      A receiver that drops the escapes reads the header back and recovers every partition
      and every I_PCM sample, and never sees a start code inside. */
  method EncodePicture(header: seq<Element>, ds: seq<Decision>, wmb: nat, hmb: nat, nref: nat,
                       refIdc: nat, nalType: nat)
    returns (nal: seq<byte>, parts: seq<Part>, pcm: map<nat, seq<byte>>)
    requires ValidElements(header) && refIdc < 4 && nalType < 32
    requires wmb > 0 && 0 < |ds| == wmb * hmb <= MAX_MB && 0 < nref <= MAX_REF && AllValid(ds, nref)
    ensures |nal| >= 5 && nal[..4] == [0, 0, 0, 1] && nal[4] == refIdc * 32 + nalType && NoStartCode(nal[5..])
    ensures var s := BytesToBits(NalPayload(nal));
            && ReadAll(s, 0, KindsOf(header)) == Some((header, |CodeAll(header)|))
            && ParseSlice(s, |CodeAll(header)|, wmb, |ds|, nref, 0, map[])
               == Some(Records(ds, wmb, nref, 0, |ds|))
    ensures parts == AllParts(Records(ds, wmb, nref, 0, |ds|)) && pcm == PcmOf(ds, |ds|)
  {
    hide SliceRbsp, Records, ParseSlice, AllParts, PcmOf, Escape, NoStartCode, Unescape, AllValid, ReadAll, CodeAll,
         KindsOf, MvState.Valid, BW.Contents, BW.Valid, BytesToBits;
    var b := new BW();
    WriteAll(b, header);
    assert b.Contents() == CodeAll(header);
    var st := new MvState(4 * wmb, 4 * hmb);
    parts, pcm := EncodeSlice(b, st, ds, wmb, hmb, nref);
    SliceDecodes(CodeAll(header), ds, wmb, nref);
    HeaderStays(header, ds, wmb, nref);
    nal := NalWrap(refIdc, nalType, b.buf);
    NalRoundTrip(nal, refIdc * 32 + nalType, b.buf);
  }

  lemma HeaderStays(header: seq<Element>, ds: seq<Decision>, wmb: nat, nref: nat)
    requires ValidElements(header) && wmb > 0 && AllValid(ds, nref)
    ensures ReadAll(SliceRbsp(CodeAll(header), ds, wmb, nref), 0, KindsOf(header))
         == Some((header, |CodeAll(header)|))
  {
    hide EncodeFrom, CodeAll, ReadAll, KindsOf;
    var s := SliceRbsp(CodeAll(header), ds, wmb, nref);
    assert At(s, 0, CodeAll(header));
    ReadAllAt(s, 0, header);
  }
}
