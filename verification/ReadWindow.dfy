/** The feeder's file reader: access units are taken out of a window that is refilled only when
    too little of it is left, instead of being re-read one by one. */
module ReadWindow {
  import opened Wrappers
  import opened Bits
  import ExpGolomb

  /** A NAL unit of the given kind begins at p[i]: a slice that starts a picture, or anything that
      ends an access unit. */
  predicate Mark(ending: bool, p: seq<byte>, i: nat)
    requires i + 8 < |p|
  {
    var t := p[i + 3] % 32;
    && p[i] == 0 && p[i + 1] == 0 && p[i + 2] == 1
    && ((ending && (t == 15 || t == 7 || t == 8 || t == 6))
        || ((t == 5 || t == 1) && p[i + 4] >= 0x80)
        || (t == 20 && p[i + 7] >= 0x80))
  }

  /** nal_unit_type, the low five bits of a NAL unit's first byte (7.3.1). */
  function UnitType(b: byte): nat { FromBits(ToBits(b, 8)[3..]) }

  /** A slice header beginning with this byte is that of a picture's first macroblock: its
      first_mb_in_slice, a ue(v), is 0 (7.3.3). */
  predicate FirstMacroblock(b: byte) { ExpGolomb.ReadUe(ToBits(b, 8), 0) == Some((0, 1)) }

  lemma UnitTypeIs(b: byte)
    ensures UnitType(b) == b % 32
  {
    hide ToBits, FromBits, Pow2;
    assert Pow2(5) == 32 by { PowFive(); }
    ToBitsSplit(b, 3, 5);
    assert ToBits(b, 8)[3..] == ToBits(b, 5);
    ToBitsMod(b, 5);
    FromToBits(b % 32, 5);
  }

  lemma PowFive()
    ensures Pow2(5) == 32 && Pow2(7) == 128
  {
    assert Pow2(4) == 16;
  }

  lemma FirstMacroblockIs(b: byte)
    ensures FirstMacroblock(b) <==> b >= 0x80
  {
    hide ToBits;
    TopBitIs(b);
    var s := ToBits(b, 8);
    if s[0] {
      assert s[1..1] == [];
    } else {
      LaterCode(s);
    }
  }

  lemma LaterCode(s: seq<bool>)
    requires |s| == 8 && !s[0]
    ensures ExpGolomb.ReadUe(s, 0) != Some((0, 1))
  {
  }

  lemma TopBitIs(b: byte)
    ensures ToBits(b, 8)[0] <==> b >= 0x80
  {
    hide ToBits, Pow2;
    PowFive();
    ToBitsSplit(b, 1, 7);
    OneBitIs(Shr(b, 7));
  }

  lemma OneBitIs(v: nat)
    ensures ToBits(v, 1)[0] == (v % 2 == 1)
  {
  }

  /** The marks by their meaning: a start code prefix before a coded slice (types 1 and 5, and 20 with
      three more header bytes) that starts a picture, or before an SEI message, a parameter set or a
      subset parameter set (6, 7, 8 and 15), which end the access unit before them (7.4.1.2.3). */
  lemma MarkIsStandard(ending: bool, p: seq<byte>, i: nat)
    requires i + 8 < |p|
    ensures Mark(ending, p, i) <==>
              && p[i..i + 3] == [0, 0, 1]
              && (var t := UnitType(p[i + 3]);
                  || (ending && t in {6, 7, 8, 15})
                  || (t in {1, 5} && FirstMacroblock(p[i + 4]))
                  || (t == 20 && FirstMacroblock(p[i + 7])))
  {
    hide UnitType, FirstMacroblock;
    UnitTypeIs(p[i + 3]);
    FirstMacroblockIs(p[i + 4]);
    FirstMacroblockIs(p[i + 7]);
    assert p[i..i + 3] == [p[i], p[i + 1], p[i + 2]];
  }

  /** The first mark at or after i; where there is none, where the search ends. */
  function FirstMark(ending: bool, p: seq<byte>, i: nat): (r: nat)
    ensures r + 8 < |p| ==> Mark(ending, p, r)
    ensures forall j :: i <= j < r && j + 8 < |p| ==> !Mark(ending, p, j)
    ensures i <= r && (r == i || r + 8 <= |p|)
    ensures r + 8 < |p| || r == i || r + 8 == |p|
    decreases |p| - i
  {
    if i + 8 >= |p| || Mark(ending, p, i) then i else FirstMark(ending, p, i + 1)
  }

  /** Where the search for the end begins: past the first picture, if there is one. */
  function AfterStart(p: seq<byte>): nat {
    var s := FirstMark(false, p, 0);
    if s + 8 < |p| then s + 8 else s
  }

  predicate EndFound(p: seq<byte>) { FirstMark(true, p, AfterStart(p)) + 8 < |p| }

  /** The length of the access unit at the head of p: up to the mark that ends it, or else all
      that is there, and past it when there is too little to search. */
  function Length(p: seq<byte>): (r: nat)
    ensures r > 0
  {
    var e := FirstMark(true, p, AfterStart(p));
    if e + 8 < |p| then e else e + 8
  }

  /** What a read of at most n bytes at an offset returns. */
  function ReadAt(file: seq<byte>, at: nat, n: nat): (r: seq<byte>)
    ensures |r| == if at >= |file| then 0 else if at + n <= |file| then n else |file| - at
    ensures forall i :: 0 <= i < |r| ==> r[i] == file[at + i]
  {
    if at >= |file| then [] else file[at..Min(at + n, |file|)]
  }

  /** An access unit that ends at a mark has a picture's start before that, and no mark between. */
  lemma LengthMeans(p: seq<byte>)
    requires EndFound(p)
    ensures var n, s := Length(p), FirstMark(false, p, 0);
            && s + 8 <= n && n + 8 < |p| && Mark(true, p, n) && Mark(false, p, s)
            && (forall i :: 0 <= i < s ==> !Mark(false, p, i)) && (forall i :: s + 8 <= i < n ==> !Mark(true, p, i))
  {
    hide Mark;
  }

  datatype Unit = Unit(offset: nat, length: nat)

  // ---------------------------------------------------------------- re-reading

  /** The simple reader: read a whole buffer at `used`, wrapping at the end of the file. */
  function Direct(file: seq<byte>, bufsize: nat, used: nat): Option<Unit> {
    var at := if ReadAt(file, used, bufsize) == [] then 0 else used;
    var p := ReadAt(file, at, bufsize);
    if p == [] then None else Some(Unit(at, Length(p)))
  }

  function DirectUnits(file: seq<byte>, bufsize: nat, used: nat, n: nat): seq<Unit>
    decreases n
  {
    if n == 0 then []
    else match Direct(file, bufsize, used)
      case None => []
      case Some(u) => [u] + DirectUnits(file, bufsize, u.offset + u.length, n - 1)
  }

  // ---------------------------------------------------------------- the window

  /** `base` is the file offset of the window, None when it is empty. */
  datatype Window = Window(base: Option<nat>, len: nat)

  predicate Covers(w: Window, file: seq<byte>, bufsize: nat) {
    w.base.Some? ==> w.len == |ReadAt(file, w.base.value, bufsize)|
  }

  predicate Refill(w: Window, bufsize: nat, used: nat) {
    || w.base.None? || used < w.base.value || used - w.base.value >= w.len
    || (w.len == bufsize && w.len - (used - w.base.value) < bufsize / 2)
  }

  /** Refilled at `used`, or at the start if nothing is left there. */
  function Filled(file: seq<byte>, bufsize: nat, used: nat): (Window, nat) {
    var at := if ReadAt(file, used, bufsize) == [] then 0 else used;
    (Window(Some(at), |ReadAt(file, at, bufsize)|), at)
  }

  /** The bytes of the window from `used` on. */
  function Rest(w: Window, file: seq<byte>, bufsize: nat, used: nat): seq<byte>
    requires Covers(w, file, bufsize) && w.base.Some? && w.base.value <= used <= w.base.value + w.len
  {
    ReadAt(file, w.base.value, bufsize)[used - w.base.value..]
  }

  /** One turn of the loop: the window after it, and the access unit found. */
  function Windowed(w: Window, file: seq<byte>, bufsize: nat, used: nat): (Window, Option<Unit>)
    requires Covers(w, file, bufsize)
  {
    var (v, at) := if Refill(w, bufsize, used) then Filled(file, bufsize, used) else (w, used);
    if v.len == 0 then (v, None) else (v, Some(Unit(at, Length(Rest(v, file, bufsize, at)))))
  }

  function WindowedUnits(w: Window, file: seq<byte>, bufsize: nat, used: nat, n: nat): seq<Unit>
    requires Covers(w, file, bufsize)
    decreases n
  {
    if n == 0 then []
    else var (v, r) := Windowed(w, file, bufsize, used);
      match r
      case None => []
      case Some(u) => [u] + WindowedUnits(v, file, bufsize, u.offset + u.length, n - 1)
  }

  // ---------------------------------------------------------------- same units

  /** At this offset the access unit's end shows within half a buffer, or no more than that is
      left of the file. */
  predicate EndsEarly(file: seq<byte>, bufsize: nat, at: nat) {
    at < |file| ==> |file| - at <= bufsize / 2 || EndFound(ReadAt(file, at, bufsize / 2))
  }

  /** So it is at every offset the simple reader visits in n turns. */
  predicate AllEndEarly(file: seq<byte>, bufsize: nat, used: nat, n: nat)
    decreases n
  {
    n == 0 || match Direct(file, bufsize, used)
      case None => true
      case Some(u) => EndsEarly(file, bufsize, u.offset) && AllEndEarly(file, bufsize, u.offset + u.length, n - 1)
  }

  lemma {:induction false} FirstMarkInPrefix(ending: bool, p: seq<byte>, q: seq<byte>, i: nat)
    requires p <= q && FirstMark(ending, p, i) + 8 < |p|
    ensures FirstMark(ending, q, i) == FirstMark(ending, p, i)
    decreases |p| - i
  {
    if i + 8 < |p| {
      MarkInPrefix(ending, p, q, i);
      if !Mark(ending, p, i) { FirstMarkInPrefix(ending, p, q, i + 1); }
    }
  }

  lemma MarkInPrefix(ending: bool, p: seq<byte>, q: seq<byte>, i: nat)
    requires p <= q && i + 8 < |p|
    ensures Mark(ending, p, i) == Mark(ending, q, i)
  {
    forall k | 0 <= k < |p| ensures p[k] == q[k] { }
  }

  /** An end that shows in a prefix is the end. */
  lemma LengthInPrefix(p: seq<byte>, q: seq<byte>)
    requires p <= q && EndFound(p)
    ensures EndFound(q) && Length(q) == Length(p)
  {
    hide FirstMark;
    FirstMarkInPrefix(false, p, q, 0);
    FirstMarkInPrefix(true, p, q, AfterStart(p));
  }

  /** What a window has left is the start of what a read at `used` returns; all of it where the
      window reaches the end of the file. */
  lemma ReadsNest(file: seq<byte>, base: nat, bufsize: nat, used: nat)
    requires base <= used < base + |ReadAt(file, base, bufsize)|
    ensures used < |file|
    ensures ReadAt(file, base, bufsize)[used - base..] == file[used..Min(base + bufsize, |file|)]
    ensures ReadAt(file, used, bufsize) == file[used..Min(used + bufsize, |file|)]
    ensures ReadAt(file, used, bufsize / 2) == file[used..Min(used + bufsize / 2, |file|)]
  {
  }

  lemma SlicePrefix(file: seq<byte>, at: nat, m: nat, n: nat)
    requires at <= m <= n <= |file|
    ensures file[at..m] <= file[at..n]
  {
    assert file[at..m] == file[at..n][..m - at];
  }

  /** Either reader finds the same access unit. */
  lemma SameUnit(w: Window, file: seq<byte>, bufsize: nat, used: nat)
    requires Covers(w, file, bufsize)
    requires Direct(file, bufsize, used).Some? ==> EndsEarly(file, bufsize, Direct(file, bufsize, used).value.offset)
    ensures Windowed(w, file, bufsize, used).1 == Direct(file, bufsize, used)
    ensures Covers(Windowed(w, file, bufsize, used).0, file, bufsize)
  {
    hide Length, EndFound;
    if Refill(w, bufsize, used) {
      var (v, at) := Filled(file, bufsize, used);
      assert v.len != 0 ==> Rest(v, file, bufsize, at) == ReadAt(file, at, bufsize);
    } else {
      ReadsNest(file, w.base.value, bufsize, used);
      var p := Rest(w, file, bufsize, used);
      var q := ReadAt(file, used, bufsize);
      var m := Min(w.base.value + bufsize, |file|);
      if p != q {
        var half := ReadAt(file, used, bufsize / 2);
        SlicePrefix(file, used, Min(used + bufsize / 2, |file|), m);
        SlicePrefix(file, used, m, Min(used + bufsize, |file|));
        LengthInPrefix(half, p);
        LengthInPrefix(half, q);
      }
    }
  }

  /** Wraps included, the window yields the same access units as re-reading, if every access
      unit's end shows within half a buffer or that is all the file has left. */
  lemma {:induction false} WindowYieldsSameUnits(w: Window, file: seq<byte>, bufsize: nat, used: nat, n: nat)
    requires Covers(w, file, bufsize) && AllEndEarly(file, bufsize, used, n)
    ensures WindowedUnits(w, file, bufsize, used, n) == DirectUnits(file, bufsize, used, n)
    decreases n
  {
    hide Windowed, Direct, EndsEarly, Covers;
    if n != 0 {
      SameUnit(w, file, bufsize, used);
      var (v, r) := Windowed(w, file, bufsize, used);
      if r.Some? {
        WindowYieldsSameUnits(v, file, bufsize, r.value.offset + r.value.length, n - 1);
      }
    }
  }

  /** Where the scan of p stops when it finds no end: past a picture that starts too late to search
      for one, else where the bytes end, after eight at least. */
  function Stop(p: seq<byte>): nat {
    var s := FirstMark(false, p, 0);
    if s + 8 < |p| && s + 16 > |p| then s + 16 else if |p| < 8 then 8 else |p|
  }

  lemma LengthWithoutEnd(p: seq<byte>)
    requires !EndFound(p)
    ensures Length(p) == Stop(p)
  {
  }

  /** A prefix gives the length of the whole exactly if the end shows in it, or the whole's length is
      where the scan of the prefix stops. */
  lemma LengthIff(p: seq<byte>, q: seq<byte>)
    requires p <= q
    ensures Length(p) == Length(q) <==> EndFound(p) || Length(q) == Stop(p)
  {
    hide Length, EndFound, Stop;
    if EndFound(p) { LengthInPrefix(p, q); } else { LengthWithoutEnd(p); }
  }

  /** The window serves as well as a fresh read this turn: it is refilled; or the access unit's end
      shows in what it has left, or stands just where the scan of that stops. */
  predicate TurnAgrees(w: Window, file: seq<byte>, bufsize: nat, used: nat)
    requires Covers(w, file, bufsize)
  {
    Refill(w, bufsize, used) ||
      var p := Rest(w, file, bufsize, used);
      EndFound(p) || Length(ReadAt(file, used, bufsize)) == Stop(p)
  }

  /** Exactly then either reader finds the same access unit. */
  lemma SameUnitIff(w: Window, file: seq<byte>, bufsize: nat, used: nat)
    requires Covers(w, file, bufsize)
    ensures Windowed(w, file, bufsize, used).1 == Direct(file, bufsize, used) <==> TurnAgrees(w, file, bufsize, used)
    ensures Covers(Windowed(w, file, bufsize, used).0, file, bufsize)
    ensures Windowed(w, file, bufsize, used).1.Some? <==> Direct(file, bufsize, used).Some?
  {
    hide Length, EndFound, Stop;
    if Refill(w, bufsize, used) {
      var (v, at) := Filled(file, bufsize, used);
      assert v.len != 0 ==> Rest(v, file, bufsize, at) == ReadAt(file, at, bufsize);
    } else {
      ReadsNest(file, w.base.value, bufsize, used);
      SlicePrefix(file, used, Min(w.base.value + bufsize, |file|), Min(used + bufsize, |file|));
      LengthIff(Rest(w, file, bufsize, used), ReadAt(file, used, bufsize));
    }
  }

  /** So it is in each of n turns, along the window as it moves. */
  predicate AllAgree(w: Window, file: seq<byte>, bufsize: nat, used: nat, n: nat)
    requires Covers(w, file, bufsize)
    decreases n
  {
    n == 0 ||
    (&& TurnAgrees(w, file, bufsize, used)
     && var (v, r) := Windowed(w, file, bufsize, used);
        r.Some? ==> Covers(v, file, bufsize) && AllAgree(v, file, bufsize, r.value.offset + r.value.length, n - 1))
  }

  /** Wraps included, the window yields the same access units as re-reading if and only if it serves
      as well in every turn. */
  lemma {:induction false} SameUnitsIff(w: Window, file: seq<byte>, bufsize: nat, used: nat, n: nat)
    requires Covers(w, file, bufsize)
    ensures WindowedUnits(w, file, bufsize, used, n) == DirectUnits(file, bufsize, used, n)
            <==> AllAgree(w, file, bufsize, used, n)
    decreases n
  {
    hide Windowed, Direct, TurnAgrees, Covers;
    if n != 0 {
      SameUnitIff(w, file, bufsize, used);
      var (v, r) := Windowed(w, file, bufsize, used);
      var d := Direct(file, bufsize, used);
      if r.Some? {
        var next := r.value.offset + r.value.length;
        SameUnitsIff(v, file, bufsize, next, n - 1);
        HeadsAndTails(r.value, WindowedUnits(v, file, bufsize, next, n - 1), d.value,
                      DirectUnits(file, bufsize, d.value.offset + d.value.length, n - 1));
      }
    }
  }

  lemma HeadsAndTails(a: Unit, x: seq<Unit>, b: Unit, y: seq<Unit>)
    ensures [a] + x == [b] + y <==> a == b && x == y
  {
    if [a] + x == [b] + y {
      assert ([a] + x)[0] == a && ([b] + y)[0] == b;
      assert ([a] + x)[1..] == x && ([b] + y)[1..] == y;
    }
  }

  /** An access unit is longer than the bytes at hand, by at most seven, exactly when there are
      fewer than eight of them or the picture starts so late that the search for its end is over
      before it begins. */
  lemma OverrunIff(p: seq<byte>)
    requires p != []
    ensures var s := FirstMark(false, p, 0);
            Length(p) > |p| <==> |p| < 8 || (s + 8 < |p| && s + 16 > |p|)
    ensures Length(p) <= |p| + 7
  {
  }

  /** A file of a single picture shorter than sixteen bytes is handed over as sixteen, and one of
      fewer than eight bytes as eight. */
  lemma ShortFileOverruns(bufsize: nat)
    requires bufsize >= 10
    ensures Direct([0, 0, 1, 1, 0x80, 9, 9, 9, 9, 9], bufsize, 0) == Some(Unit(0, 16))
    ensures Direct([9], bufsize, 0) == Some(Unit(0, 8))
  {
    hide FirstMark;
    var p: seq<byte> := [0, 0, 1, 1, 0x80, 9, 9, 9, 9, 9];
    var q: seq<byte> := [9];
    assert ReadAt(p, 0, bufsize) == p && ReadAt(q, 0, bufsize) == q;
    NextMark(false, p, 0, 0);
    NextMark(true, p, 8, 8);
    NextMark(false, q, 0, 0);
    NextMark(true, q, 0, 0);
  }

  // ---------------------------------------------------------------- a longer access unit

  /** Where the slices begin that start a picture: at 0, at 12 and five bytes before the end of the
      first buffer. */
  predicate IsSlice(bufsize: nat, i: nat) { i == 0 || i == 12 || i + 5 == bufsize }

  function SliceByte(bufsize: nat, i: nat): byte {
    if IsSlice(bufsize, i) || (i >= 1 && IsSlice(bufsize, i - 1)) then 0
    else if (i >= 2 && IsSlice(bufsize, i - 2)) || (i >= 3 && IsSlice(bufsize, i - 3)) then 1
    else if i >= 4 && IsSlice(bufsize, i - 4) then 0x80
    else 9
  }

  function Slices(bufsize: nat): (f: seq<byte>)
    ensures |f| == bufsize + 16
  {
    seq(bufsize + 16, i requires 0 <= i < bufsize + 16 => SliceByte(bufsize, i))
  }

  lemma SliceBytes(bufsize: nat, i: nat)
    requires bufsize >= 32
    ensures IsSlice(bufsize, i) ==>
              && SliceByte(bufsize, i) == SliceByte(bufsize, i + 1) == 0
              && SliceByte(bufsize, i + 2) == SliceByte(bufsize, i + 3) == 1 && SliceByte(bufsize, i + 4) == 0x80
    ensures !IsSlice(bufsize, i) ==> SliceByte(bufsize, i) != 0 || SliceByte(bufsize, i + 1) != 0
  {
  }

  lemma SliceMarks(bufsize: nat, ending: bool, a: nat, b: nat, i: nat)
    requires bufsize >= 32 && a <= b <= bufsize + 16 && i + 8 < b - a
    ensures Mark(ending, Slices(bufsize)[a..b], i) <==> IsSlice(bufsize, a + i)
  {
    hide SliceByte, IsSlice;
    var p := Slices(bufsize)[a..b];
    SliceBytes(bufsize, a + i);
    assert p[i] == SliceByte(bufsize, a + i) && p[i + 1] == SliceByte(bufsize, a + i + 1);
    assert p[i + 2] == SliceByte(bufsize, a + i + 2) && p[i + 3] == SliceByte(bufsize, a + i + 3);
    assert p[i + 4] == SliceByte(bufsize, a + i + 4);
  }

  lemma NextMark(ending: bool, p: seq<byte>, i: nat, r: nat)
    requires i <= r && (r + 8 < |p| ==> Mark(ending, p, r)) && (r == i || r + 8 <= |p|)
    requires r + 8 < |p| || r == i || r + 8 == |p|
    requires forall j :: i <= j < r && j + 8 < |p| ==> !Mark(ending, p, j)
    ensures FirstMark(ending, p, i) == r
  {
  }

  lemma SliceLength(bufsize: nat, a: nat, b: nat, e: nat)
    requires bufsize >= 32 && a <= b <= bufsize + 16 && b - a > 8 && IsSlice(bufsize, a)
    requires e >= 8 && e + 8 <= b - a && (e + 8 < b - a ==> IsSlice(bufsize, a + e))
    requires forall k :: a + 8 <= k < a + e ==> !IsSlice(bufsize, k)
    ensures Length(Slices(bufsize)[a..b]) == if e + 8 < b - a then e else e + 8
  {
    hide Slices, Mark, FirstMark, IsSlice;
    var p := Slices(bufsize)[a..b];
    SliceMarks(bufsize, false, a, b, 0);
    NextMark(false, p, 0, 0);
    forall j | 8 <= j && j + 8 < |p| ensures Mark(true, p, j) <==> IsSlice(bufsize, a + j) {
      SliceMarks(bufsize, true, a, b, j);
    }
    NextMark(true, p, 8, e);
  }

  /** An end past the first half of the buffer can be missed, whatever the size of the buffer: here
      the second access unit runs on to the end of the window, where re-reading finds its end. */
  lemma LateEndIsMissed(bufsize: nat)
    requires bufsize >= 32
    ensures DirectUnits(Slices(bufsize), bufsize, 0, 2) == [Unit(0, 12), Unit(12, bufsize - 17)]
    ensures WindowedUnits(Window(None, 0), Slices(bufsize), bufsize, 0, 2) == [Unit(0, 12), Unit(12, bufsize - 12)]
  {
    hide Slices, Mark, FirstMark, Length, DirectUnits, WindowedUnits;
    SliceLength(bufsize, 0, bufsize, 12);
    SliceLength(bufsize, 12, bufsize + 12, bufsize - 17);
    SliceLength(bufsize, 12, bufsize, bufsize - 20);
    LateUnits(Slices(bufsize), bufsize);
  }

  lemma LateUnits(f: seq<byte>, n: nat)
    requires n >= 32 && |f| == n + 16
    requires Length(f[0..n]) == 12 && Length(f[12..n + 12]) == n - 17 && Length(f[12..n]) == n - 12
    ensures DirectUnits(f, n, 0, 2) == [Unit(0, 12), Unit(12, n - 17)]
    ensures WindowedUnits(Window(None, 0), f, n, 0, 2) == [Unit(0, 12), Unit(12, n - 12)]
  {
    hide Length;
    assert ReadAt(f, 0, n) == f[0..n] && ReadAt(f, 12, n) == f[12..n + 12];
    LateDirect(f, n);
    assert f[0..n][0..] == f[0..n] && f[0..n][12..] == f[12..n];
    LateWindowed(f, n);
  }

  lemma LateDirect(f: seq<byte>, n: nat)
    requires n >= 32 && |ReadAt(f, 0, n)| == |ReadAt(f, 12, n)| == n
    requires Length(ReadAt(f, 0, n)) == 12 && Length(ReadAt(f, 12, n)) == n - 17
    ensures DirectUnits(f, n, 0, 2) == [Unit(0, 12), Unit(12, n - 17)]
  {
    hide Length, ReadAt;
    assert Direct(f, n, 0) == Some(Unit(0, 12));
    assert Direct(f, n, 12) == Some(Unit(12, n - 17));
    assert DirectUnits(f, n, 12, 1) == [Unit(12, n - 17)];
  }

  lemma LateWindowed(f: seq<byte>, n: nat)
    requires n >= 32 && |ReadAt(f, 0, n)| == n
    requires Length(ReadAt(f, 0, n)[0..]) == 12 && Length(ReadAt(f, 0, n)[12..]) == n - 12
    ensures WindowedUnits(Window(None, 0), f, n, 0, 2) == [Unit(0, 12), Unit(12, n - 12)]
  {
    hide Length, ReadAt;
    var w := Window(Some(0), n);
    assert Windowed(Window(None, 0), f, n, 0) == (w, Some(Unit(0, 12)));
    assert Windowed(w, f, n, 12) == (w, Some(Unit(12, n - 12)));
    assert WindowedUnits(w, f, n, 12, 1) == [Unit(12, n - 12)];
  }

  // ---------------------------------------------------------------- the loop's own form

  class Reader {
    var file: seq<byte>
    const buf: array<byte>
    var used: nat
    var winBase: int
    var winLen: nat

    predicate Valid()
      reads this, buf
    {
      && winLen <= buf.Length
      && (winBase >= 0 ==> buf[..winLen] == ReadAt(file, winBase, buf.Length))
    }

    function View(): Window
      reads this
    {
      Window(if winBase >= 0 then Some(winBase) else None, winLen)
    }

    constructor (f: seq<byte>, bufsize: nat)
      ensures Valid() && file == f && buf.Length == bufsize && used == 0 && View() == Window(None, 0)
    {
      file, buf, used, winBase, winLen := f, new byte[bufsize](_ => 0), 0, -1, 0;
    }

    /** A track change: another file, from its start. */
    method ChangeTrack(f: seq<byte>)
      modifies this
      ensures Valid() && file == f && used == 0 && View() == Window(None, 0)
    {
      file, used, winBase, winLen := f, 0, -1, 0;
    }

    /** fseek and fread */
    method Read(at: nat)
      modifies this`winBase, this`winLen, buf
      ensures Valid() && winBase == at && winLen == |ReadAt(file, at, buf.Length)|
    {
      var data := ReadAt(file, at, buf.Length);
      forall i | 0 <= i < |data| { buf[i] := data[i]; }
      winBase, winLen := at, |data|;
      assert buf[..winLen] == data;
    }

    /** Whether a mark begins at buf[off + i]. */
    method Marks(ending: bool, off: nat, avail: nat, i: nat) returns (m: bool)
      requires off + avail <= buf.Length && i + 8 < avail
      ensures m == Mark(ending, buf[off..off + avail], i)
    {
      var k := off + i;
      var t := buf[k + 3] % 32;
      m := buf[k] == 0 && buf[k + 1] == 0 && buf[k + 2] == 1
        && ((ending && (t == 15 || t == 7 || t == 8 || t == 6))
            || ((t == 5 || t == 1) && buf[k + 4] >= 0x80) || (t == 20 && buf[k + 7] >= 0x80));
    }

    /** The search loop, for a picture's start or for an end. */
    method Search(ending: bool, off: nat, avail: nat, from: nat) returns (i: nat, found: bool)
      requires off + avail <= buf.Length
      ensures i == FirstMark(ending, buf[off..off + avail], from) && found == (i + 8 < avail)
    {
      hide Mark, FirstMark;
      ghost var p := buf[off..off + avail];
      i, found := from, false;
      while i + 8 < avail
        invariant FirstMark(ending, p, from) == FirstMark(ending, p, i)
        decreases avail - i
      {
        FirstMarkStep(ending, p, i);
        found := Marks(ending, off, avail, i);
        if found { return; }
        i := i + 1;
      }
      found := false;
      FirstMarkStep(ending, p, i);
    }

    /** The length of the access unit at buf[off..off + avail]. */
    method Scan(off: nat, avail: nat) returns (rd: int)
      requires off + avail <= buf.Length
      ensures rd == Length(buf[off..off + avail])
    {
      hide Mark, FirstMark;
      rd := avail;
      var i, started := Search(false, off, avail, 0);
      if started { i := i + 8; }
      var e, found := Search(true, off, avail, i);
      if e > 0 { rd := e; }
      if !found { rd := e + 8; }
    }

    /** Refill the window if need be; at the end of the file, from its start. */
    method Refresh()
      requires Valid()
      modifies this`used, this`winBase, this`winLen, buf
      ensures Valid() && winBase >= 0
      ensures (View(), used) == if Refill(old(View()), buf.Length, old(used)) then Filled(file, buf.Length, old(used))
                                else (old(View()), old(used))
      ensures winBase <= used <= winBase + winLen
    {
      hide ReadAt;
      var off := if winBase >= 0 then used - winBase else -1;
      if off < 0 || off >= winLen || (winLen == buf.Length && winLen - off < buf.Length / 2) {
        Read(used);
        if winLen == 0 {
          used := 0;
          Read(0);
        }
      }
    }

    /** One turn of the loop, which submits what it finds. It ends on an empty file. */
    method NextUnit() returns (r: Option<Unit>)
      requires Valid()
      modifies this`used, this`winBase, this`winLen, buf
      ensures Valid() && Covers(old(View()), file, buf.Length)
      ensures (View(), r) == Windowed(old(View()), file, buf.Length, old(used))
      ensures r.Some? ==> used == r.value.offset + r.value.length
    {
      hide Length, ReadAt, Refill, Filled;
      Refresh();
      if winLen == 0 { return None; }
      ghost var all := ReadAt(file, winBase, buf.Length);
      var off := used - winBase;
      assert buf[off..winLen] == all[off..] by { assert buf[..winLen] == all; }
      var rd := Scan(off, winLen - off);
      r := Some(Unit(used, rd));
      used := used + rd;
    }
  }

  lemma FirstMarkStep(ending: bool, p: seq<byte>, i: nat)
    ensures FirstMark(ending, p, i) == if i + 8 >= |p| || Mark(ending, p, i) then i else FirstMark(ending, p, i + 1)
  {
  }
}
