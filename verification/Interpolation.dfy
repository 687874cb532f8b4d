/** Quarter-sample luma interpolation (section 8.4.2.2.1 of ITU-T H.264): one sample at a time,
    and a whole block at a time from a window fetched once. */
module Interpolation {
  import opened Bits

  /** A luma plane: `h` rows of `w` samples, and whatever follows it in memory. */
  datatype Plane = Plane(w: nat, h: nat, px: seq<byte>) {
    predicate Valid() { w > 0 && h > 0 && |px| >= w * h }
  }

  function Clamp(v: int, n: nat): (c: nat)
    requires n > 0
    ensures c < n && (0 <= v < n ==> c == v) && (v < 0 ==> c == 0) && (v >= n ==> c == n - 1)
  {
    if v < 0 then 0 else if v >= n then n - 1 else v
  }

  lemma InPlane(w: nat, h: nat, x: nat, y: nat)
    requires x < w && y < h
    ensures 0 <= y * w + x < w * h
  {
    MulAtLeast(h - y, w);
    assert (h - y) * w == h * w - y * w;
  }

  /** pyx: the sample at (x, y), the plane extended by its border samples. */
  function Pix(P: Plane, x: int, y: int): byte
    requires P.Valid()
  {
    InPlane(P.w, P.h, Clamp(x, P.w), Clamp(y, P.h));
    P.px[Clamp(y, P.h) * P.w + Clamp(x, P.w)]
  }

  /** Past a border stands the border's sample (8.4.2.2.1, equations 8-239 and 8-240). */
  lemma BordersRepeat(P: Plane, x: int, y: int)
    requires P.Valid()
    ensures x < 0 ==> Pix(P, x, y) == Pix(P, 0, y)
    ensures x >= P.w ==> Pix(P, x, y) == Pix(P, P.w - 1, y)
    ensures y < 0 ==> Pix(P, x, y) == Pix(P, x, 0)
    ensures y >= P.h ==> Pix(P, x, y) == Pix(P, x, P.h - 1)
    ensures 0 <= x < P.w && 0 <= y < P.h ==> 0 <= y * P.w + x < |P.px| && Pix(P, x, y) == P.px[y * P.w + x]
  {
    if 0 <= x < P.w && 0 <= y < P.h { InPlane(P.w, P.h, x, y); }
  }

  function Tap6(a: int, b: int, c: int, d: int, e: int, f: int): int {
    a - 5 * b + 20 * c + 20 * d - 5 * e + f
  }

  function Clip1(v: int): byte { if v < 0 then 0 else if v > 255 then 255 else v }
  function Avg2(a: int, b: int): int { (a + b + 1) / 2 }

  /** Rounding of a one-pass and of a two-pass six-tap sum; >> is a floor division. */
  function Round5(v: int): byte { Clip1((v + 16) / 32) }
  function Round10(v: int): byte { Clip1((v + 512) / 1024) }

  function B1At(P: Plane, x: int, y: int): int
    requires P.Valid()
  {
    Tap6(Pix(P, x - 2, y), Pix(P, x - 1, y), Pix(P, x, y), Pix(P, x + 1, y), Pix(P, x + 2, y), Pix(P, x + 3, y))
  }

  function H1At(P: Plane, x: int, y: int): int
    requires P.Valid()
  {
    Tap6(Pix(P, x, y - 2), Pix(P, x, y - 1), Pix(P, x, y), Pix(P, x, y + 1), Pix(P, x, y + 2), Pix(P, x, y + 3))
  }

  function J1At(P: Plane, x: int, y: int): int
    requires P.Valid()
  {
    Tap6(B1At(P, x, y - 2), B1At(P, x, y - 1), B1At(P, x, y), B1At(P, x, y + 1), B1At(P, x, y + 2), B1At(P, x, y + 3))
  }

  /** luma_qpel: the sample at (x + fx/4, y + fy/4). */
  function LumaQpel(P: Plane, x: int, y: int, fx: nat, fy: nat): int
    requires P.Valid() && fx < 4 && fy < 4
  {
    if fx == 0 && fy == 0 then Pix(P, x, y)
    else
      var g0 := Pix(P, x, y);
      var b, h := Round5(B1At(P, x, y)), Round5(H1At(P, x, y));
      if fy == 0 then
        if fx == 1 then Avg2(g0, b) else if fx == 2 then b else Avg2(Pix(P, x + 1, y), b)
      else if fx == 0 then
        if fy == 1 then Avg2(g0, h) else if fy == 2 then h else Avg2(Pix(P, x, y + 1), h)
      else
        var s, m := Round5(B1At(P, x, y + 1)), Round5(H1At(P, x + 1, y));
        if fx == 2 || fy == 2 then
          var j := Round10(J1At(P, x, y));
          if fx == 2 then
            if fy == 1 then Avg2(b, j) else if fy == 2 then j else Avg2(j, s)
          else if fx == 1 then Avg2(h, j) else Avg2(j, m)
        else if fy == 1 then
          if fx == 1 then Avg2(b, h) else Avg2(b, m)
        else if fx == 1 then Avg2(h, s) else Avg2(m, s)
  }

  // ---------------------------------------------------------------- the standard

  /** Six taps of weight 1, -5, 20, 20, -5 and 1. */
  function Weight(k: nat): int
    requires k < 6
  {
    [1, -5, 20, 20, -5, 1][k]
  }

  /** b1 at (x, y): across the row (equation 8-241). */
  function Across(P: Plane, x: int, y: int, k: nat): int
    requires P.Valid() && k <= 6
  {
    if k == 0 then 0 else Across(P, x, y, k - 1) + Weight(k - 1) * Pix(P, x + k - 3, y)
  }

  /** h1 at (x, y): down the column (8-242). */
  function Along(P: Plane, x: int, y: int, k: nat): int
    requires P.Valid() && k <= 6
  {
    if k == 0 then 0 else Along(P, x, y, k - 1) + Weight(k - 1) * Pix(P, x, y + k - 3)
  }

  /** j1 at (x, y), from the columns' sums cc, dd, h1, m1, ee and ff (8-245). */
  function Middle(P: Plane, x: int, y: int, k: nat): int
    requires P.Valid() && k <= 6
  {
    if k == 0 then 0 else Middle(P, x, y, k - 1) + Weight(k - 1) * Along(P, x + k - 3, y, 6)
  }

  /** Clip1((v + 2^(n - 1)) >> n) */
  function Rounded(v: int, n: nat): int
    requires n > 0
  {
    Max(0, Min(255, (v + Pow2(n - 1)) / Pow2(n)))
  }

  function Mean(a: int, b: int): int { (a + b + 1) / 2 }

  /** The sixteen samples by their letters (equations 8-243 to 8-261, Table 8-12). */
  function Standard(P: Plane, x: int, y: int, fx: nat, fy: nat): int
    requires P.Valid() && fx < 4 && fy < 4
  {
    var G, H, M := Pix(P, x, y), Pix(P, x + 1, y), Pix(P, x, y + 1);
    var b, s := Rounded(Across(P, x, y, 6), 5), Rounded(Across(P, x, y + 1, 6), 5);
    var h, m := Rounded(Along(P, x, y, 6), 5), Rounded(Along(P, x + 1, y, 6), 5);
    var j := Rounded(Middle(P, x, y, 6), 10);
    match (fx, fy)
    case (0, 0) => G             case (0, 1) => Mean(G, h)    case (0, 2) => h             case (0, 3) => Mean(M, h)
    case (1, 0) => Mean(G, b)    case (1, 1) => Mean(b, h)    case (1, 2) => Mean(h, j)    case (1, 3) => Mean(h, s)
    case (2, 0) => b             case (2, 1) => Mean(b, j)    case (2, 2) => j             case (2, 3) => Mean(j, s)
    case (3, 0) => Mean(H, b)    case (3, 1) => Mean(b, m)    case (3, 2) => Mean(j, m)    case (_, _) => Mean(s, m)
  }

  lemma AcrossIs(P: Plane, x: int, y: int)
    requires P.Valid()
    ensures Across(P, x, y, 6) == B1At(P, x, y)
  {
    hide Pix;
    assert Across(P, x, y, 1) == Pix(P, x - 2, y);
    assert Across(P, x, y, 2) == Across(P, x, y, 1) - 5 * Pix(P, x - 1, y);
    assert Across(P, x, y, 3) == Across(P, x, y, 2) + 20 * Pix(P, x, y);
    assert Across(P, x, y, 4) == Across(P, x, y, 3) + 20 * Pix(P, x + 1, y);
    assert Across(P, x, y, 5) == Across(P, x, y, 4) - 5 * Pix(P, x + 2, y);
  }

  lemma AlongIs(P: Plane, x: int, y: int)
    requires P.Valid()
    ensures Along(P, x, y, 6) == H1At(P, x, y)
  {
    hide Pix;
    assert Along(P, x, y, 1) == Pix(P, x, y - 2);
    assert Along(P, x, y, 2) == Along(P, x, y, 1) - 5 * Pix(P, x, y - 1);
    assert Along(P, x, y, 3) == Along(P, x, y, 2) + 20 * Pix(P, x, y);
    assert Along(P, x, y, 4) == Along(P, x, y, 3) + 20 * Pix(P, x, y + 1);
    assert Along(P, x, y, 5) == Along(P, x, y, 4) - 5 * Pix(P, x, y + 2);
  }

  /** Columns first or rows first, the sum of the centre sample is the same. */
  lemma MiddleIs(P: Plane, x: int, y: int)
    requires P.Valid()
    ensures Middle(P, x, y, 6) == J1At(P, x, y)
  {
    hide Pix, Along, B1At, H1At;
    assert Middle(P, x, y, 1) == Along(P, x - 2, y, 6);
    assert Middle(P, x, y, 2) == Middle(P, x, y, 1) - 5 * Along(P, x - 1, y, 6);
    assert Middle(P, x, y, 3) == Middle(P, x, y, 2) + 20 * Along(P, x, y, 6);
    assert Middle(P, x, y, 4) == Middle(P, x, y, 3) + 20 * Along(P, x + 1, y, 6);
    assert Middle(P, x, y, 5) == Middle(P, x, y, 4) - 5 * Along(P, x + 2, y, 6);
    AlongIs(P, x - 2, y); AlongIs(P, x - 1, y); AlongIs(P, x, y);
    AlongIs(P, x + 1, y); AlongIs(P, x + 2, y); AlongIs(P, x + 3, y);
    RowsAndColumns(P, x, y);
  }

  lemma RowsAndColumns(P: Plane, x: int, y: int)
    requires P.Valid()
    ensures Tap6(H1At(P, x - 2, y), H1At(P, x - 1, y), H1At(P, x, y), H1At(P, x + 1, y), H1At(P, x + 2, y), H1At(P, x + 3, y))
         == J1At(P, x, y)
  {
    hide Pix;
  }

  lemma RoundedIs(v: int)
    ensures Rounded(v, 5) == Round5(v) && Rounded(v, 10) == Round10(v)
  {
    assert Pow2(4) == 16 && Pow2(5) == 32;
    assert Pow2(9) == 16 * Pow2(5) && Pow2(10) == 32 * Pow2(5) by { Pow2Add(4, 5); Pow2Add(5, 5); }
  }

  /** luma_qpel is the interpolation of section 8.4.2.2.1, at all sixteen positions. */
  lemma QpelIsStandard(P: Plane, x: int, y: int, fx: nat, fy: nat)
    requires P.Valid() && fx < 4 && fy < 4
    ensures LumaQpel(P, x, y, fx, fy) == Standard(P, x, y, fx, fy)
  {
    hide Pix, Across, Along, Middle, B1At, H1At, J1At, Rounded, Round5, Round10;
    AcrossIs(P, x, y); AcrossIs(P, x, y + 1);
    AlongIs(P, x, y); AlongIs(P, x + 1, y);
    MiddleIs(P, x, y);
    RoundedIs(B1At(P, x, y)); RoundedIs(B1At(P, x, y + 1));
    RoundedIs(H1At(P, x, y)); RoundedIs(H1At(P, x + 1, y));
    RoundedIs(J1At(P, x, y));
  }

  /** What sample `k` of a block of width `w` must be, in raster order. */
  function Expected(P: Plane, xi: int, yi: int, w: nat, fx: nat, fy: nat, k: nat): int
    requires P.Valid() && fx < 4 && fy < 4 && w > 0
  {
    LumaQpel(P, xi + k % w, yi + k / w, fx, fy)
  }

  lemma ExpectedAt(P: Plane, xi: int, yi: int, w: nat, fx: nat, fy: nat, j: nat, i: nat)
    requires P.Valid() && fx < 4 && fy < 4 && i < w
    ensures Expected(P, xi, yi, w, fx, fy, j * w + i) == LumaQpel(P, xi + i, yi + j, fx, fy)
  {
    hide LumaQpel;
    DivUnique(j * w + i, w, j, i);
  }

  /** The first `n` samples of the block are in place. */
  ghost predicate Filled(P: Plane, xi: int, yi: int, w: nat, fx: nat, fy: nat, out: array<int>, n: nat)
    requires P.Valid() && fx < 4 && fy < 4 && w > 0
    reads out
  {
    n <= out.Length && forall k :: 0 <= k < n ==> out[k] == Expected(P, xi, yi, w, fx, fy, k)
  }

  /** The window holds the samples around the block, two before and three after it. */
  ghost predicate Window(P: Plane, x0: int, y0: int, win: array2<int>, rows: nat, cols: nat)
    requires P.Valid()
    reads win
  {
    && rows <= win.Length0 && cols <= win.Length1
    && forall r, c :: 0 <= r < rows && 0 <= c < cols ==> win[r, c] == Pix(P, x0 + c, y0 + r)
  }

  /** The fetch: straight rows inside the plane, clamped coordinates otherwise. */
  method Fetch(P: Plane, x0: int, y0: int, rows: nat, cols: nat) returns (win: array2<int>)
    requires P.Valid() && rows <= 21 && cols <= 21
    ensures fresh(win) && win.Length0 == win.Length1 == 21 && Window(P, x0, y0, win, rows, cols)
  {
    hide Pix;
    win := new int[21, 21];
    var inside := x0 >= 0 && y0 >= 0 && x0 + cols <= P.w && y0 + rows <= P.h;
    var r := 0;
    while r < rows
      invariant 0 <= r <= rows && Window(P, x0, y0, win, r, cols)
    {
      var c := 0;
      while c < cols
        invariant 0 <= c <= cols && Window(P, x0, y0, win, r, cols)
        invariant forall k :: 0 <= k < c ==> win[r, k] == Pix(P, x0 + k, y0 + r)
      {
        var v := FetchOne(P, inside, x0 + c, y0 + r);
        win[r, c] := v;
        c := c + 1;
      }
      r := r + 1;
    }
  }

  /** A sample copied from its row, or clamped. */
  method FetchOne(P: Plane, inside: bool, x: int, y: int) returns (v: int)
    requires P.Valid() && (inside ==> 0 <= x < P.w && 0 <= y < P.h)
    ensures v == Pix(P, x, y)
  {
    hide Pix;
    var cx, cy := x, y;
    if !inside {
      cx := if x < 0 then 0 else if x >= P.w then P.w - 1 else x;
      cy := if y < 0 then 0 else if y >= P.h then P.h - 1 else y;
      BordersRepeat(P, x, y);
      BordersRepeat(P, cx, y);
    }
    PixInside(P, cx, cy);
    v := P.px[cy * P.w + cx];
  }

  lemma PixInside(P: Plane, x: int, y: int)
    requires P.Valid() && 0 <= x < P.w && 0 <= y < P.h
    ensures 0 <= y * P.w + x < |P.px| && Pix(P, x, y) == P.px[y * P.w + x]
  {
    InPlane(P.w, P.h, x, y);
  }

  function TapRow(win: array2<int>, r: nat, c: nat): int
    requires r < win.Length0 && c + 5 < win.Length1
    reads win
  {
    Tap6(win[r, c], win[r, c + 1], win[r, c + 2], win[r, c + 3], win[r, c + 4], win[r, c + 5])
  }

  function TapCol(win: array2<int>, r: nat, c: nat): int
    requires r + 5 < win.Length0 && c < win.Length1
    reads win
  {
    Tap6(win[r, c], win[r + 1, c], win[r + 2, c], win[r + 3, c], win[r + 4, c], win[r + 5, c])
  }

  lemma TapRowIs(P: Plane, x0: int, y0: int, win: array2<int>, rows: nat, cols: nat, r: nat, c: nat)
    requires P.Valid() && Window(P, x0, y0, win, rows, cols) && r < rows && c + 5 < cols
    ensures TapRow(win, r, c) == B1At(P, x0 + 2 + c, y0 + r)
  {
    hide Pix, Tap6;
  }

  /** One sample of the block, from the window, when no two-pass sum is needed. */
  function SampleOf(win: array2<int>, fx: nat, fy: nat, j: nat, i: nat): int
    requires fx < 4 && fy < 4 && ((fx != 2 && fy != 2) || fx == 0 || fy == 0)
    requires j + 5 < win.Length0 && i + 5 < win.Length1
    reads win
  {
    if fx == 0 && fy == 0 then win[j + 2, i + 2]
    else if fy == 0 then
      var b := Round5(TapRow(win, j + 2, i));
      if fx == 2 then b else Avg2(win[j + 2, i + (if fx == 1 then 2 else 3)], b)
    else if fx == 0 then
      var h := Round5(TapCol(win, j, i + 2));
      if fy == 2 then h else Avg2(win[j + (if fy == 1 then 2 else 3), i + 2], h)
    else
      Avg2(Round5(TapRow(win, j + (if fy == 1 then 2 else 3), i)),
           Round5(TapCol(win, j, i + (if fx == 1 then 2 else 3))))
  }

  lemma SampleIs(P: Plane, xi: int, yi: int, win: array2<int>, rows: nat, cols: nat, fx: nat, fy: nat, j: nat, i: nat)
    requires P.Valid() && Window(P, xi - 2, yi - 2, win, rows, cols) && j + 5 < rows && i + 5 < cols
    requires fx < 4 && fy < 4 && ((fx != 2 && fy != 2) || fx == 0 || fy == 0)
    ensures SampleOf(win, fx, fy, j, i) == LumaQpel(P, xi + i, yi + j, fx, fy)
  {
    hide Pix, B1At, H1At, J1At, TapRow, TapCol, Round5, Round10;
    var ry, cx := if fy == 3 then 3 else 2, if fx == 3 then 3 else 2;
    TapRowIs(P, xi - 2, yi - 2, win, rows, cols, j + 2, i);
    TapRowIs(P, xi - 2, yi - 2, win, rows, cols, j + ry, i);
    TapColIs(P, xi - 2, yi - 2, win, rows, cols, j, i + 2);
    TapColIs(P, xi - 2, yi - 2, win, rows, cols, j, i + cx);
  }

  lemma TapColIs(P: Plane, x0: int, y0: int, win: array2<int>, rows: nat, cols: nat, r: nat, c: nat)
    requires P.Valid() && Window(P, x0, y0, win, rows, cols) && r + 5 < rows && c < cols
    ensures TapCol(win, r, c) == H1At(P, x0 + c, y0 + 2 + r)
  {
    hide Pix, Tap6;
  }

  /** The horizontal sums of every window row, computed once and shared by the block. */
  ghost predicate RowSums(P: Plane, xi: int, y0: int, b1: array2<int>, rows: nat, w: nat)
    requires P.Valid()
    reads b1
  {
    && rows <= b1.Length0 && w <= b1.Length1
    && forall r, i :: 0 <= r < rows && 0 <= i < w ==> b1[r, i] == B1At(P, xi + i, y0 + r)
  }

  method SumRows(P: Plane, xi: int, yi: int, win: array2<int>, rows: nat, w: nat) returns (b1: array2<int>)
    requires P.Valid() && rows <= 21 && w <= 16 && Window(P, xi - 2, yi - 2, win, rows, w + 5)
    ensures fresh(b1) && b1.Length0 == 21 && b1.Length1 == 16 && RowSums(P, xi, yi - 2, b1, rows, w)
  {
    hide Pix, B1At, TapRow;
    b1 := new int[21, 16];
    var r := 0;
    while r < rows
      invariant 0 <= r <= rows && RowSums(P, xi, yi - 2, b1, r, w)
    {
      var i := 0;
      while i < w
        invariant 0 <= i <= w && RowSums(P, xi, yi - 2, b1, r, w)
        invariant forall k :: 0 <= k < i ==> b1[r, k] == B1At(P, xi + k, yi - 2 + r)
      {
        TapRowIs(P, xi - 2, yi - 2, win, rows, w + 5, r, i);
        b1[r, i] := TapRow(win, r, i);
        i := i + 1;
      }
      r := r + 1;
    }
  }

  /** One sample at a half position of either axis, from the window and the shared sums. */
  function CentreOf(win: array2<int>, b1: array2<int>, fx: nat, fy: nat, j: nat, i: nat): int
    requires 0 < fx < 4 && 0 < fy < 4 && (fx == 2 || fy == 2)
    requires j + 5 < win.Length0 && i + 5 < win.Length1 && j + 5 < b1.Length0 && i < b1.Length1
    reads win, b1
  {
    var jj := Round10(TapCol(b1, j, i));
    if fx == 2 then
      if fy == 2 then jj else Avg2(jj, Round5(b1[j + (if fy == 1 then 2 else 3), i]))
    else
      Avg2(jj, Round5(TapCol(win, j, i + (if fx == 1 then 2 else 3))))
  }

  lemma CentreIs(P: Plane, xi: int, yi: int, win: array2<int>, b1: array2<int>, rows: nat, w: nat,
                 fx: nat, fy: nat, j: nat, i: nat)
    requires P.Valid() && Window(P, xi - 2, yi - 2, win, rows, w + 5) && RowSums(P, xi, yi - 2, b1, rows, w)
    requires j + 5 < rows && i < w && 0 < fx < 4 && 0 < fy < 4 && (fx == 2 || fy == 2)
    ensures CentreOf(win, b1, fx, fy, j, i) == LumaQpel(P, xi + i, yi + j, fx, fy)
  {
    hide Pix, B1At, H1At, Round5, Round10, Tap6;
    TapColIs(P, xi - 2, yi - 2, win, rows, w + 5, j, i + (if fx == 1 then 2 else 3));
    assert TapCol(b1, j, i) == J1At(P, xi + i, yi + j);
  }

  predicate TwoPass(fx: nat, fy: nat) { fx != 0 && fy != 0 && (fx == 2 || fy == 2) }

  /** One sample of the block, from the window or from the sums of its rows. */
  method Sample(P: Plane, xi: int, yi: int, w: nat, h: nat, fx: nat, fy: nat,
                win: array2<int>, b1: array2<int>, j: nat, i: nat) returns (v: int)
    requires P.Valid() && w <= 16 && h <= 16 && fx < 4 && fy < 4 && j < h && i < w
    requires win.Length0 == win.Length1 == 21 && Window(P, xi - 2, yi - 2, win, h + 5, w + 5)
    requires TwoPass(fx, fy) ==>
               b1.Length0 == 21 && b1.Length1 == 16 && RowSums(P, xi, yi - 2, b1, h + 5, w)
    ensures v == LumaQpel(P, xi + i, yi + j, fx, fy)
  {
    hide Pix, LumaQpel, SampleOf, CentreOf, RowSums, Window;
    if TwoPass(fx, fy) {
      CentreIs(P, xi, yi, win, b1, h + 5, w, fx, fy, j, i);
      v := CentreOf(win, b1, fx, fy, j, i);
    } else {
      SampleIs(P, xi, yi, win, h + 5, w + 5, fx, fy, j, i);
      v := SampleOf(win, fx, fy, j, i);
    }
  }

  /** The sample loops. The five of the source differ only in their sample expression. */
  method FillBlock(P: Plane, xi: int, yi: int, w: nat, h: nat, fx: nat, fy: nat,
                   win: array2<int>, b1: array2<int>, out: array<int>)
    requires P.Valid() && 0 < w <= 16 && 0 < h <= 16 && fx < 4 && fy < 4 && out.Length >= w * h
    requires win.Length0 == win.Length1 == 21 && Window(P, xi - 2, yi - 2, win, h + 5, w + 5)
    requires TwoPass(fx, fy) ==>
               b1.Length0 == 21 && b1.Length1 == 16 && RowSums(P, xi, yi - 2, b1, h + 5, w)
    modifies out
    ensures Filled(P, xi, yi, w, fx, fy, out, w * h)
  {
    hide Pix, LumaQpel, Expected, RowSums, Window, Filled, TwoPass;
    var j, k := 0, 0;
    NoneFilled(P, xi, yi, w, fx, fy, out);
    while j < h
      invariant 0 <= j <= h && k == j * w && Filled(P, xi, yi, w, fx, fy, out, k)
    {
      InPlane(w, h, w - 1, j);
      FillRow(P, xi, yi, w, h, fx, fy, win, b1, out, j, k);
      assert (j + 1) * w == j * w + w;
      j, k := j + 1, k + w;
    }
  }

  lemma NoneFilled(P: Plane, xi: int, yi: int, w: nat, fx: nat, fy: nat, out: array<int>)
    requires P.Valid() && fx < 4 && fy < 4 && w > 0
    ensures Filled(P, xi, yi, w, fx, fy, out, 0)
  {
  }

  /** Row j of the block, from out[k] on. */
  method FillRow(P: Plane, xi: int, yi: int, w: nat, h: nat, fx: nat, fy: nat,
                 win: array2<int>, b1: array2<int>, out: array<int>, j: nat, k: nat)
    requires P.Valid() && 0 < w <= 16 && h <= 16 && fx < 4 && fy < 4 && j < h && k == j * w && k + w <= out.Length
    requires win.Length0 == win.Length1 == 21 && Window(P, xi - 2, yi - 2, win, h + 5, w + 5)
    requires TwoPass(fx, fy) ==>
               b1.Length0 == 21 && b1.Length1 == 16 && RowSums(P, xi, yi - 2, b1, h + 5, w)
    requires Filled(P, xi, yi, w, fx, fy, out, k)
    modifies out
    ensures Filled(P, xi, yi, w, fx, fy, out, k + w)
  {
    hide Pix, LumaQpel, Expected, RowSums, Window, Filled, TwoPass;
    var i := 0;
    while i < w
      invariant 0 <= i <= w && Filled(P, xi, yi, w, fx, fy, out, k + i)
    {
      var v := Sample(P, xi, yi, w, h, fx, fy, win, b1, j, i);
      Put(P, xi, yi, w, fx, fy, out, j, i, k + i, v);
      i := i + 1;
    }
  }

  /** The store out[j * w + i], in raster order. */
  method Put(P: Plane, xi: int, yi: int, w: nat, fx: nat, fy: nat, out: array<int>, j: nat, i: nat, k: nat, v: int)
    requires P.Valid() && fx < 4 && fy < 4 && i < w && k == j * w + i && k < out.Length
    requires Filled(P, xi, yi, w, fx, fy, out, k) && v == LumaQpel(P, xi + i, yi + j, fx, fy)
    modifies out
    ensures Filled(P, xi, yi, w, fx, fy, out, k + 1)
  {
    hide LumaQpel, Expected;
    ExpectedAt(P, xi, yi, w, fx, fy, j, i);
    out[k] := v;
  }

  /** mc_luma_block: for every plane, block position (also past the borders), size and vector,
      each sample is the one luma_qpel gives. */
  method McLumaBlock(P: Plane, x: int, y: int, w: nat, h: nat, mvx: int, mvy: int, out: array<int>)
    requires P.Valid() && 0 < w <= 16 && 0 < h <= 16 && out.Length >= w * h
    modifies out
    ensures Filled(P, x + mvx / 4, y + mvy / 4, w, mvx % 4, mvy % 4, out, w * h)
  {
    hide Pix, LumaQpel, RowSums, Window, Filled;
    var xi, yi, fx, fy := x + mvx / 4, y + mvy / 4, mvx % 4, mvy % 4;
    var win := Fetch(P, xi - 2, yi - 2, h + 5, w + 5);
    var b1 := win;
    if TwoPass(fx, fy) { b1 := SumRows(P, xi, yi, win, h + 5, w); }
    FillBlock(P, xi, yi, w, h, fx, fy, win, b1, out);
  }

  /** Sample (i, j) of a filled block, in the block's own coordinates. */
  lemma FilledAt(P: Plane, xi: int, yi: int, w: nat, h: nat, fx: nat, fy: nat, out: array<int>, j: nat, i: nat)
    requires P.Valid() && fx < 4 && fy < 4 && i < w && j < h && Filled(P, xi, yi, w, fx, fy, out, w * h)
    ensures 0 <= j * w + i < w * h <= out.Length && out[j * w + i] == LumaQpel(P, xi + i, yi + j, fx, fy)
  {
    hide LumaQpel, Expected;
    InPlane(w, h, i, j);
    ExpectedAt(P, xi, yi, w, fx, fy, j, i);
  }
}
