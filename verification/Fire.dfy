/** The fire scene: each frame re-computes only the rows the fire can have reached. */
module Fire {
  import opened Bits

  const W := 1280
  const H := 720
  const N := W * H
  const EMBERS := (H - 2) * W     // the first of the two seeded rows

  /** Heat from the three cells below and the one two below, cooled by 32/129. */
  function Cool(a: int, b: int, c: int, d: int): int { (a + b + c + d) * 32 / 129 }

  lemma CoolFits(a: byte, b: byte, c: byte, d: byte)
    ensures 0 <= Cool(a, b, c, d) <= 253
    ensures a == b == c == d == 0 ==> Cool(a, b, c, d) == 0
  {
  }

  function Heat(a: int, b: int, c: int, d: int): int { a + b + c + d }

  /** Cooled to 32/129 of the heat, rounded down. */
  lemma CoolIs(a: byte, b: byte, c: byte, d: byte)
    ensures var v := Cool(a, b, c, d); 129 * v <= 32 * Heat(a, b, c, d) < 129 * (v + 1)
  {
  }

  predicate Inner(i: nat) { i < EMBERS && 1 <= i % W < W - 1 }

  /** The next value of cell i; edge columns and embers stay. */
  function Cell(buf: seq<byte>, i: nat): byte
    requires |buf| == N && i < N
  {
    if Inner(i) then
      CoolFits(buf[i + W - 1], buf[i + W], buf[i + W + 1], buf[i + 2 * W]);
      Cool(buf[i + W - 1], buf[i + W], buf[i + W + 1], buf[i + 2 * W])
    else buf[i]
  }

  /** Every cell above the two bottom rows, but for the edge columns, holds 32/129 of the heat in the
      three cells below it and the one two below. */
  ghost predicate Cooled(before: seq<byte>, after: seq<byte>)
    requires |before| == |after| == N
  {
    forall i {:trigger after[i]} :: 0 <= i < 1280 * 718 && 1 <= i % 1280 <= 1278 ==>
      var v: int := after[i];
      129 * v <= 32 * Heat(before[i + 1279], before[i + 1280], before[i + 1281], before[i + 2560]) < 129 * (v + 1)
  }

  lemma FrameIsCooled(buf: seq<byte>, seeds: seq<nat>)
    requires |buf| == N && |seeds| == 2 * W
    ensures Cooled(Seeded(buf, seeds), Frame(buf, seeds))
  {
    hide Seeded, Cool;
    var s, t := Seeded(buf, seeds), Frame(buf, seeds);
    forall i | 0 <= i < 1280 * 718 && 1 <= i % 1280 <= 1278
      ensures var v: int := t[i];
              129 * v <= 32 * Heat(s[i + 1279], s[i + 1280], s[i + 1281], s[i + 2560]) < 129 * (v + 1)
    {
      assert Inner(i);
      CoolIs(s[i + 1279], s[i + 1280], s[i + 1281], s[i + 2560]);
    }
  }

  /** Two calls of rand() a column: the bottom row, then the one above. */
  function Seeded(buf: seq<byte>, seeds: seq<nat>): (r: seq<byte>)
    requires |buf| == N && |seeds| == 2 * W
    ensures |r| == N && forall i :: 0 <= i < EMBERS ==> r[i] == buf[i]
  {
    seq(N, i requires 0 <= i < N =>
      if i < EMBERS then buf[i]
      else if i < EMBERS + W then seeds[2 * (i - EMBERS) + 1] % 256
      else seeds[2 * (i - EMBERS - W)] % 256)
  }

  /** Each call's low byte, in the order of the calls: column by column, the bottom cell first. */
  lemma SeedsAre(buf: seq<byte>, seeds: seq<nat>, x: nat)
    requires |buf| == N && |seeds| == 2 * W && x < 1280
    ensures var r := Seeded(buf, seeds);
            r[719 * 1280 + x] == seeds[2 * x] % 256 && r[718 * 1280 + x] == seeds[2 * x + 1] % 256
  {
  }

  // ---------------------------------------------------------------- every row

  function Propagated(buf: seq<byte>): (r: seq<byte>)
    requires |buf| == N
    ensures |r| == N
  {
    seq(N, i requires 0 <= i < N => Cell(buf, i))
  }

  /** One frame of the fire that updates every row. */
  function Frame(buf: seq<byte>, seeds: seq<nat>): (r: seq<byte>)
    requires |buf| == N && |seeds| == 2 * W
    ensures |r| == N
  {
    Propagated(Seeded(buf, seeds))
  }

  // ---------------------------------------------------------------- from two rows above fire_top

  function FirstRow(top: nat): (r: nat)
    ensures r <= H - 4 && (r > 0 ==> r + 2 <= top)
  {
    var lit := if top < H - 2 then top else H - 2;
    if lit - 2 < 0 then 0 else lit - 2
  }

  /** The first n cells from row `from` on are updated. */
  function PartlyUpdated(buf: seq<byte>, from: nat, n: nat): (r: seq<byte>)
    requires |buf| == N && n <= N
    ensures |r| == N
  {
    seq(N, i requires 0 <= i < N => if from * W <= i < n then Cell(buf, i) else buf[i])
  }

  predicate RowLit(buf: seq<byte>, y: nat)
    requires |buf| == N && y < H
  {
    exists i :: y * W + 1 <= i < y * W + W - 1 && buf[i] != 0
  }

  /** The first row with any heat, among those above the embers. */
  function FirstLit(buf: seq<byte>, y: nat): (r: nat)
    requires |buf| == N && y <= H - 2
    ensures y <= r <= H - 2 && (r < H - 2 ==> RowLit(buf, r))
    ensures forall k :: y <= k < r ==> !RowLit(buf, k)
    decreases H - y
  {
    if y == H - 2 || RowLit(buf, y) then y else FirstLit(buf, y + 1)
  }

  datatype Flame = Flame(buf: seq<byte>, top: nat)

  predicate WellSized(f: Flame) { |f.buf| == N && f.top <= H }

  /** One frame of scene_fire. */
  function Skipping(f: Flame, seeds: seq<nat>): (r: Flame)
    requires WellSized(f) && |seeds| == 2 * W
    ensures WellSized(r)
  {
    var from := FirstRow(f.top);
    var buf := PartlyUpdated(Seeded(f.buf, seeds), from, EMBERS);
    Flame(buf, FirstLit(buf, from))
  }

  // ---------------------------------------------------------------- they agree

  /** Rows above fire_top are zero, edge columns included; so are the edges down to the embers. */
  predicate Dark(f: Flame) {
    && WellSized(f)
    && (forall i :: 0 <= i < f.top * W ==> f.buf[i] == 0)
    && (forall i :: 0 <= i < EMBERS && !Inner(i) ==> f.buf[i] == 0)
  }

  lemma SkippedStaysDark(f: Flame, seeds: seq<nat>, i: nat)
    requires Dark(f) && |seeds| == 2 * W && i < FirstRow(f.top) * W
    ensures Cell(Seeded(f.buf, seeds), i) == 0 == Seeded(f.buf, seeds)[i]
  {
  }

  lemma FrameAgrees(f: Flame, seeds: seq<nat>)
    requires Dark(f) && |seeds| == 2 * W
    ensures Skipping(f, seeds).buf == Frame(f.buf, seeds)
  {
  }

  lemma RowDark(buf: seq<byte>, y: nat, i: nat)
    requires |buf| == N && y < H - 2 && !RowLit(buf, y) && y * W <= i < y * W + W
    requires forall k :: 0 <= k < EMBERS && !Inner(k) ==> buf[k] == 0
    ensures buf[i] == 0
  {
  }

  lemma StaysDark(f: Flame, seeds: seq<nat>)
    requires Dark(f) && |seeds| == 2 * W
    ensures Dark(Skipping(f, seeds))
  {
    hide Seeded, Cool, RowLit, FirstLit, Inner, FirstRow;
    var s := Seeded(f.buf, seeds);
    var r := Skipping(f, seeds);
    var from := FirstRow(f.top);
    forall i | 0 <= i < EMBERS && !Inner(i) ensures r.buf[i] == 0 {
      assert r.buf[i] == s[i] == f.buf[i];
    }
    forall i | 0 <= i < r.top * W ensures r.buf[i] == 0 {
      if i < from * W {
        SkippedStaysDark(f, seeds, i);
      } else {
        var y := i / W;
        DivMod(i, W);
        assert from <= y < r.top;
        RowDark(r.buf, y, i);
      }
    }
  }

  // ---------------------------------------------------------------- any number of frames

  function Frames(buf: seq<byte>, seeds: seq<seq<nat>>): (r: seq<byte>)
    requires |buf| == N && forall i :: 0 <= i < |seeds| ==> |seeds[i]| == 2 * W
    ensures |r| == N
  {
    if seeds == [] then buf else Frame(Frames(buf, seeds[..|seeds| - 1]), seeds[|seeds| - 1])
  }

  function SkippingFrames(f: Flame, seeds: seq<seq<nat>>): (r: Flame)
    requires WellSized(f) && forall i :: 0 <= i < |seeds| ==> |seeds[i]| == 2 * W
    ensures WellSized(r)
  {
    if seeds == [] then f else Skipping(SkippingFrames(f, seeds[..|seeds| - 1]), seeds[|seeds| - 1])
  }

  const Cold: Flame := Flame(seq(N, _ => 0), H)

  /** For every sequence of seeds and every number of frames, the row-skipping fire has the same
      buffer as the one that updates every row, and everything above fire_top is zero. */
  lemma {:induction false} FireIsTheSame(seeds: seq<seq<nat>>)
    requires forall i :: 0 <= i < |seeds| ==> |seeds[i]| == 2 * W
    ensures SkippingFrames(Cold, seeds).buf == Frames(Cold.buf, seeds) && Dark(SkippingFrames(Cold, seeds))
    decreases |seeds|
  {
    hide Skipping, Frame, Dark;
    if seeds == [] {
      ColdIsDark();
    } else {
      var n := |seeds| - 1;
      FireIsTheSame(seeds[..n]);
      FrameAgrees(SkippingFrames(Cold, seeds[..n]), seeds[n]);
      StaysDark(SkippingFrames(Cold, seeds[..n]), seeds[n]);
    }
  }

  lemma ColdIsDark()
    ensures Dark(Cold)
  {
  }

  // ---------------------------------------------------------------- in place

  class Scene {
    const firebuf: array<byte>
    const fb: array<nat>
    const firepal: seq<nat>
    var fireTop: nat

    predicate Valid()
      reads this, firebuf
    {
      firebuf.Length == N && fb.Length == N && |firepal| == 256 && Dark(View())
    }

    function View(): Flame
      reads this, firebuf
    {
      Flame(firebuf[..], fireTop)
    }

    constructor (pal: seq<nat>)
      requires |pal| == 256
      ensures Valid() && View() == Cold && firepal == pal && fresh(firebuf) && fresh(fb)
    {
      firebuf, fb, firepal, fireTop := new byte[N](_ => 0), new nat[N](_ => 0), pal, H;
      new;
      assert firebuf[..] == Cold.buf;
      ColdIsDark();
    }

    /** Embers along the bottom. */
    method Seed(seeds: seq<nat>)
      requires firebuf.Length == N && |seeds| == 2 * W
      modifies firebuf
      ensures firebuf[..] == Seeded(old(firebuf[..]), seeds)
    {
      ghost var was := firebuf[..];
      ghost var s := Seeded(was, seeds);
      var x := 0;
      while x < W
        invariant 0 <= x <= W
        invariant forall i :: 0 <= i < EMBERS ==> firebuf[i] == s[i]
        invariant forall i :: EMBERS <= i < EMBERS + x ==> firebuf[i] == s[i]
        invariant forall i :: EMBERS + W <= i < EMBERS + W + x ==> firebuf[i] == s[i]
      {
        firebuf[(H - 1) * W + x] := seeds[2 * x] % 256;
        firebuf[(H - 2) * W + x] := seeds[2 * x + 1] % 256;
        x := x + 1;
      }
      assert firebuf[..] == s;
    }

    /** Row y of the update, and whether it has any heat. */
    method Row(ghost s: seq<byte>, ghost from: nat, y: nat) returns (any: bool)
      requires firebuf.Length == N && |s| == N && from <= y < H - 2
      requires firebuf[..] == PartlyUpdated(s, from, y * W)
      modifies firebuf
      ensures firebuf[..] == PartlyUpdated(s, from, (y + 1) * W)
      ensures any == RowLit(firebuf[..], y)
    {
      hide Cell, RowLit, Inner, PartlyUpdated, Cool, LitUpTo;
      any := false;
      RowCells(y, 0);
      EdgeStays(s, from, y * W);
      LitNone(firebuf[..], y);
      var x := 1;
      while x < W - 1
        invariant 1 <= x <= W - 1
        invariant firebuf[..] == PartlyUpdated(s, from, y * W + x)
        invariant any <==> LitUpTo(firebuf[..], y, x)
      {
        var i := y * W + x;
        ghost var before := firebuf[..];
        RowCells(y, x);
        Below(s, from, i);
        CoolFits(firebuf[i + W - 1], firebuf[i + W], firebuf[i + W + 1], firebuf[i + 2 * W]);
        var v: byte := Cool(firebuf[i + W - 1], firebuf[i + W], firebuf[i + W + 1], firebuf[i + 2 * W]);
        firebuf[i] := v;
        assert firebuf[..] == before[i := v];
        LitMore(before, y, x, v);
        any := any || v != 0;
        x := x + 1;
      }
      LitIs(firebuf[..], y);
      RowCells(y, W - 1);
      EdgeStays(s, from, y * W + W - 1);
    }

    /** The update from two rows above the fire, and the first row with any heat. */
    method Propagate(ghost s: seq<byte>) returns (top: nat)
      requires firebuf.Length == N && firebuf[..] == s && fireTop <= H
      modifies firebuf
      ensures firebuf[..] == PartlyUpdated(s, FirstRow(fireTop), EMBERS) && top == FirstLit(firebuf[..], FirstRow(fireTop))
    {
      hide RowLit, PartlyUpdated, FirstLit;
      var lit := if fireTop < H - 2 then fireTop else H - 2;
      top := H - 2;
      var y := if lit - 2 < 0 then 0 else lit - 2;
      ghost var from := y;
      NoneUpdated(s, from);
      while y < H - 2
        invariant from <= y <= H - 2 && firebuf[..] == PartlyUpdated(s, from, y * W)
        invariant Lowest(firebuf[..], from, y, top)
      {
        ghost var before := firebuf[..];
        var any := Row(s, from, y);
        LowestNext(s, from, y, top);
        if any && y < top { top := y; }
        y := y + 1;
      }
      LowestIs(firebuf[..], from, top);
    }

    /** The picture: black above the fire, the palette's colour of each cell from there. */
    method Paint()
      requires Valid()
      modifies fb
      ensures firebuf[..] == old(firebuf[..])
      ensures forall i :: 0 <= i < N ==> fb[i] == firepal[firebuf[i]]
    {
      ghost var was := firebuf[..];
      var i := 0;
      while i < fireTop * W
        invariant 0 <= i <= fireTop * W && firebuf[..] == was
        invariant forall k :: 0 <= k < i ==> fb[k] == firepal[0]
      {
        fb[i] := firepal[0];
        i := i + 1;
      }
      while i < N
        invariant fireTop * W <= i <= N && firebuf[..] == was
        invariant forall k :: 0 <= k < fireTop * W ==> fb[k] == firepal[0]
        invariant forall k :: fireTop * W <= k < i ==> fb[k] == firepal[was[k]]
      {
        fb[i] := firepal[firebuf[i]];
        i := i + 1;
      }
      forall k | 0 <= k < N ensures fb[k] == firepal[firebuf[k]] {
        assert firebuf[k] == was[k];
      }
    }

    /** scene_fire: the buffer and the picture of a full update, and the rows above fire_top dark. */
    method SceneFire(seeds: seq<nat>)
      requires Valid() && |seeds| == 2 * W
      modifies this, firebuf, fb
      ensures Valid() && View() == Skipping(old(View()), seeds)
      ensures firebuf[..] == Frame(old(firebuf[..]), seeds)
      ensures Cooled(Seeded(old(firebuf[..]), seeds), firebuf[..])
      ensures forall i :: 0 <= i < N ==> fb[i] == firepal[firebuf[i]]
    {
      hide Seeded, PartlyUpdated, FirstLit, Frame;
      ghost var was := View();
      Seed(seeds);
      fireTop := Propagate(firebuf[..]);
      FrameAgrees(was, seeds);
      FrameIsCooled(was.buf, seeds);
      StaysDark(was, seeds);
      Paint();
    }
  }

  lemma RowCells(y: nat, x: nat)
    requires y < H - 2 && x < W
    ensures Inner(y * W + x) <==> 1 <= x < W - 1
  {
    DivUnique(y * W + x, W, y, x);
  }

  lemma NoneUpdated(s: seq<byte>, from: nat)
    requires |s| == N && from < H
    ensures PartlyUpdated(s, from, from * W) == s && Lowest(s, from, from, H - 2)
  {
  }

  lemma EdgeStays(s: seq<byte>, from: nat, i: nat)
    requires |s| == N && i < N && !Inner(i)
    ensures PartlyUpdated(s, from, i + 1) == PartlyUpdated(s, from, i)
  {
    hide Inner;
  }

  /** The cells that cell i takes its heat from are not updated yet. */
  lemma Below(s: seq<byte>, from: nat, i: nat)
    requires |s| == N && Inner(i) && from * W <= i
    ensures i + 2 * W < N
    ensures var p := PartlyUpdated(s, from, i);
            var v := Cool(p[i + W - 1], p[i + W], p[i + W + 1], p[i + 2 * W]);
            0 <= v < 256 && PartlyUpdated(s, from, i + 1) == p[i := v]
  {
  }

  predicate LitUpTo(buf: seq<byte>, y: nat, x: nat)
    requires |buf| == N && y < H && x < W
  {
    exists i :: y * W + 1 <= i < y * W + x && buf[i] != 0
  }

  lemma LitNone(buf: seq<byte>, y: nat)
    requires |buf| == N && y < H
    ensures !LitUpTo(buf, y, 1)
  {
  }

  lemma LitMore(buf: seq<byte>, y: nat, x: nat, v: byte)
    requires |buf| == N && y < H && 1 <= x < W - 1
    ensures LitUpTo(buf[y * W + x := v], y, x + 1) <==> LitUpTo(buf, y, x) || v != 0
  {
    var i := y * W + x;
    var after := buf[i := v];
    assert forall k :: y * W + 1 <= k < i ==> after[k] == buf[k];
    if v != 0 { assert after[i] != 0; }
  }

  lemma LitIs(buf: seq<byte>, y: nat)
    requires |buf| == N && y < H
    ensures RowLit(buf, y) == LitUpTo(buf, y, W - 1)
  {
  }

  /** Of the rows from `from` to y, `top` is the first with heat, or H - 2 if none has. */
  predicate Lowest(buf: seq<byte>, from: nat, y: nat, top: nat)
    requires |buf| == N && y < H
  {
    && (top == H - 2 || (from <= top < y && RowLit(buf, top)))
    && forall k :: from <= k < y && k < top ==> !RowLit(buf, k)
  }

  lemma LowestNext(s: seq<byte>, from: nat, y: nat, top: nat)
    requires |s| == N && from <= y < H - 2 && Lowest(PartlyUpdated(s, from, y * W), from, y, top)
    ensures var b := PartlyUpdated(s, from, (y + 1) * W);
            Lowest(b, from, y + 1, if RowLit(b, y) && y < top then y else top)
  {
    hide RowLit;
    var a, b := PartlyUpdated(s, from, y * W), PartlyUpdated(s, from, (y + 1) * W);
    forall k | from <= k < y ensures RowLit(a, k) == RowLit(b, k) {
      RowKept(a, b, k);
    }
  }

  lemma RowKept(a: seq<byte>, b: seq<byte>, k: nat)
    requires |a| == |b| == N && k < H && forall i :: k * W <= i < k * W + W ==> a[i] == b[i]
    ensures RowLit(a, k) == RowLit(b, k)
  {
  }

  lemma LowestIs(buf: seq<byte>, from: nat, top: nat)
    requires |buf| == N && from <= H - 2 && Lowest(buf, from, H - 2, top)
    ensures top == FirstLit(buf, from)
  {
  }
}
