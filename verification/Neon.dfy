/** The NEON 4x4 luma path: the same interpolation in 16-bit and 32-bit lanes. Every lane
    operation is written with its wrap-around or its saturation. */
module Neon {
  import opened Bits
  import opened Interpolation

  function Wrap16(v: int): int { (v + 0x8000) % 0x1_0000 - 0x8000 }
  function Wrap32(v: int): int { (v + 0x8000_0000) % 0x1_0000_0000 - 0x8000_0000 }
  function SatU8(v: int): byte { if v < 0 then 0 else if v > 255 then 255 else v }
  function SatU16(v: int): int { if v < 0 then 0 else if v > 65535 then 65535 else v }

  type Lanes = seq<int>

  /** vaddq_s16, vmlaq_n_s16 and vmlsq_n_s16, lane by lane. */
  function Add16(a: Lanes, b: Lanes): (r: Lanes)
    requires |a| == |b|
    ensures |r| == |a|
  {
    seq(|a|, i requires 0 <= i < |a| => Wrap16(a[i] + b[i]))
  }

  function Mla16(a: Lanes, b: Lanes, n: int): (r: Lanes)
    requires |a| == |b|
    ensures |r| == |a|
  {
    seq(|a|, i requires 0 <= i < |a| => Wrap16(a[i] + b[i] * n))
  }

  /** vaddl_s16 and vmlal_n_s16: 16-bit lanes into 32-bit ones. */
  function Addl(a: Lanes, b: Lanes): (r: Lanes)
    requires |a| == |b|
    ensures |r| == |a|
  {
    seq(|a|, i requires 0 <= i < |a| => Wrap32(a[i] + b[i]))
  }

  function Mlal(a: Lanes, b: Lanes, n: int): (r: Lanes)
    requires |a| == |b|
    ensures |r| == |a|
  {
    seq(|a|, i requires 0 <= i < |a| => Wrap32(a[i] + b[i] * n))
  }

  /** vqrshrun_n_s16(v, 5): rounding shift, then saturation to eight bits. */
  function Narrow5(v: Lanes): (r: Lanes)
    ensures |r| == |v|
  {
    seq(|v|, i requires 0 <= i < |v| => SatU8((v[i] + 16) / 32))
  }

  /** vqrshrun_n_s32(v, 10) to 16 bits, then vqmovn_u16 to eight. */
  function Narrow10(v: Lanes): (r: Lanes)
    ensures |r| == |v|
  {
    seq(|v|, i requires 0 <= i < |v| => SatU8(SatU16((v[i] + 512) / 1024)))
  }

  /** vrhadd_u8 */
  function Rhadd(a: Lanes, b: Lanes): (r: Lanes)
    requires |a| == |b|
    ensures |r| == |a|
  {
    seq(|a|, i requires 0 <= i < |a| => (a[i] + b[i] + 1) / 2)
  }

  /** vext: lanes k .. k + n - 1 of two vectors of n lanes. */
  function Ext(lo: Lanes, hi: Lanes, k: nat): (r: Lanes)
    requires |lo| == |hi| && k <= |lo|
    ensures |r| == |lo|
  {
    (lo + hi)[k..k + |lo|]
  }

  /** tap6h: columns 0..7 of the horizontal sums of a row of 16 samples. */
  function Tap6h(row: seq<byte>): (r: Lanes)
    requires |row| == 16
    ensures |r| == 8
  {
    var lo: Lanes, hi: Lanes := row[..8], row[8..];
    var s := Add16(lo, Ext(lo, hi, 5));
    var s' := Mla16(s, Add16(Ext(lo, hi, 2), Ext(lo, hi, 3)), 20);
    Mla16(s', Add16(Ext(lo, hi, 1), Ext(lo, hi, 4)), -5)
  }

  /** tap6v: vertical sums of six rows. */
  function Tap6v(r0: Lanes, r1: Lanes, r2: Lanes, r3: Lanes, r4: Lanes, r5: Lanes): (r: Lanes)
    requires |r0| == |r1| == |r2| == |r3| == |r4| == |r5|
    ensures |r| == |r0|
  {
    Mla16(Mla16(Add16(r0, r5), Add16(r2, r3), 20), Add16(r1, r4), -5)
  }

  /** The 32-bit vertical sums of 16-bit horizontal ones. */
  function Tap6l(r0: Lanes, r1: Lanes, r2: Lanes, r3: Lanes, r4: Lanes, r5: Lanes): (r: Lanes)
    requires |r0| == |r1| == |r2| == |r3| == |r4| == |r5|
    ensures |r| == |r0|
  {
    Mlal(Mlal(Addl(r0, r5), Add16(r2, r3), 20), Add16(r1, r4), -5)
  }

  // ---------------------------------------------------------------- no lane overflows

  predicate IsByte(v: int) { 0 <= v < 256 }
  predicate IsSum(v: int) { -2550 <= v <= 10710 }

  /** A six-tap sum of samples lies in -2550 .. 10710, and so do all its partial sums. */
  lemma TapLane16(a: int, b: int, c: int, d: int, e: int, f: int)
    requires IsByte(a) && IsByte(b) && IsByte(c) && IsByte(d) && IsByte(e) && IsByte(f)
    ensures Wrap16(Wrap16(Wrap16(a + f) + Wrap16(c + d) * 20) + Wrap16(b + e) * -5) == Tap6(a, b, c, d, e, f)
    ensures IsSum(Tap6(a, b, c, d, e, f))
  {
    hide Wrap16;
    Fits16(a + f); Fits16(c + d); Fits16(b + e);
    Fits16(a + f + (c + d) * 20);
    Fits16(Tap6(a, b, c, d, e, f));
  }

  lemma Fits16(v: int)
    requires -0x8000 <= v < 0x8000
    ensures Wrap16(v) == v
  {
  }

  lemma Fits32(v: int)
    requires -0x8000_0000 <= v < 0x8000_0000
    ensures Wrap32(v) == v
  {
  }

  lemma TapLane32(a: int, b: int, c: int, d: int, e: int, f: int)
    requires IsSum(a) && IsSum(b) && IsSum(c) && IsSum(d) && IsSum(e) && IsSum(f)
    ensures Wrap32(Wrap32(Wrap32(a + f) + Wrap16(c + d) * 20) + Wrap16(b + e) * -5) == Tap6(a, b, c, d, e, f)
    ensures -214200 <= Tap6(a, b, c, d, e, f) <= 475320
  {
    hide Wrap16, Wrap32;
    Fits32(a + f); Fits16(c + d); Fits16(b + e);
    Fits32(a + f + (c + d) * 20);
    Fits32(Tap6(a, b, c, d, e, f));
  }

  lemma Tap6hLane(row: seq<byte>, i: nat)
    requires |row| == 16 && i < 8
    ensures Tap6h(row)[i] == Tap6(row[i], row[i + 1], row[i + 2], row[i + 3], row[i + 4], row[i + 5])
    ensures IsSum(Tap6h(row)[i])
  {
    hide Wrap16, Tap6;
    TapLane16(row[i], row[i + 1], row[i + 2], row[i + 3], row[i + 4], row[i + 5]);
  }

  lemma Tap6vLane(r0: Lanes, r1: Lanes, r2: Lanes, r3: Lanes, r4: Lanes, r5: Lanes, i: nat)
    requires |r0| == |r1| == |r2| == |r3| == |r4| == |r5| && i < |r0|
    requires IsByte(r0[i]) && IsByte(r1[i]) && IsByte(r2[i]) && IsByte(r3[i]) && IsByte(r4[i]) && IsByte(r5[i])
    ensures Tap6v(r0, r1, r2, r3, r4, r5)[i] == Tap6(r0[i], r1[i], r2[i], r3[i], r4[i], r5[i])
  {
    hide Wrap16, Tap6;
    TapLane16(r0[i], r1[i], r2[i], r3[i], r4[i], r5[i]);
  }

  lemma Tap6lLane(r0: Lanes, r1: Lanes, r2: Lanes, r3: Lanes, r4: Lanes, r5: Lanes, i: nat)
    requires |r0| == |r1| == |r2| == |r3| == |r4| == |r5| && i < |r0|
    requires IsSum(r0[i]) && IsSum(r1[i]) && IsSum(r2[i]) && IsSum(r3[i]) && IsSum(r4[i]) && IsSum(r5[i])
    ensures Tap6l(r0, r1, r2, r3, r4, r5)[i] == Tap6(r0[i], r1[i], r2[i], r3[i], r4[i], r5[i])
  {
    hide Wrap16, Wrap32, Tap6;
    TapLane32(r0[i], r1[i], r2[i], r3[i], r4[i], r5[i]);
  }

  /** Saturating in two steps is clipping once. */
  lemma NarrowIsClip(v: int)
    ensures SatU8((v + 16) / 32) == Round5(v)
    ensures SatU8(SatU16((v + 512) / 1024)) == Round10(v)
  {
  }

  // ---------------------------------------------------------------- the block

  /** The nine rows of 16 samples loaded from (xi - 2, yi - 2). */
  ghost predicate Rows(P: Plane, xi: int, yi: int, R: seq<seq<byte>>)
    requires P.Valid()
  {
    && Loaded(R)
    && forall r, c :: 0 <= r < 9 && 0 <= c < 9 ==> R[r][c] == Pix(P, xi - 2 + c, yi - 2 + r)
  }

  /** Lanes k .. k + 7 of a loaded row. */
  function Col(R: seq<seq<byte>>, r: nat, k: nat): (c: Lanes)
    requires r < |R| && |R[r]| == 16 && k <= 8
    ensures |c| == 8
  {
    Ext(R[r][..8], R[r][8..], k)
  }

  predicate Loaded(R: seq<seq<byte>>) { |R| == 9 && forall r :: 0 <= r < 9 ==> |R[r]| == 16 }

  /** Rounded horizontal sums of row r. */
  function Horizontal(R: seq<seq<byte>>, r: nat): (v: Lanes)
    requires Loaded(R) && r < 9
    ensures |v| == 8
  {
    Narrow5(Tap6h(R[r]))
  }

  /** Rounded vertical sums of columns 0..7 for prediction row j. */
  function Vertical(R: seq<seq<byte>>, j: nat): (v: Lanes)
    requires Loaded(R) && j < 4
    ensures |v| == 8
  {
    Narrow5(Tap6v(R[j][..8], R[j + 1][..8], R[j + 2][..8], R[j + 3][..8], R[j + 4][..8], R[j + 5][..8]))
  }

  /** Rounded two-pass sums: four lanes, duplicated. */
  function Centre(R: seq<seq<byte>>, j: nat): (v: Lanes)
    requires Loaded(R) && j < 4
    ensures |v| == 8
  {
    var q := Narrow10(Tap6l(Tap6h(R[j])[..4], Tap6h(R[j + 1])[..4], Tap6h(R[j + 2])[..4],
                            Tap6h(R[j + 3])[..4], Tap6h(R[j + 4])[..4], Tap6h(R[j + 5])[..4]));
    q + q
  }

  /** One row of the prediction, in lanes 0..3 of eight. */
  function NeonRow(R: seq<seq<byte>>, fx: nat, fy: nat, j: nat): (out: Lanes)
    requires Loaded(R) && fx < 4 && fy < 4 && j < 4
    ensures |out| == 8
  {
    var ry, cx := if fy == 1 then 2 else 3, if fx == 1 then 2 else 3;
    if fx == 0 && fy == 0 then Col(R, j + 2, 2)
    else if fy == 0 then
      if fx == 2 then Horizontal(R, j + 2) else Rhadd(Horizontal(R, j + 2), Col(R, j + 2, cx))
    else if fx == 0 then
      var h := Ext(Vertical(R, j), Vertical(R, j), 2);
      if fy == 2 then h else Rhadd(h, Col(R, j + ry, 2))
    else if fx == 2 || fy == 2 then
      if fx == 2 then
        if fy == 2 then Centre(R, j) else Rhadd(Centre(R, j), Horizontal(R, j + ry))
      else Rhadd(Centre(R, j), Ext(Vertical(R, j), Vertical(R, j), cx))
    else
      Rhadd(Horizontal(R, j + ry), Ext(Vertical(R, j), Vertical(R, j), cx))
  }

  lemma ColLane(R: seq<seq<byte>>, r: nat, k: nat, i: nat)
    requires r < |R| && |R[r]| == 16 && k <= 8 && i < 8
    ensures Col(R, r, k)[i] == R[r][k + i]
  {
  }

  lemma HorizontalLane(P: Plane, xi: int, yi: int, R: seq<seq<byte>>, r: nat, i: nat)
    requires P.Valid() && Rows(P, xi, yi, R) && r < 9 && i < 4
    ensures Horizontal(R, r)[i] == Round5(B1At(P, xi + i, yi - 2 + r))
    ensures Tap6h(R[r])[i] == B1At(P, xi + i, yi - 2 + r) && IsSum(B1At(P, xi + i, yi - 2 + r))
  {
    hide Pix, Tap6, Tap6h, SatU8, SatU16, Round5, Round10;
    Tap6hLane(R[r], i);
    NarrowIsClip(Tap6h(R[r])[i]);
  }

  lemma VerticalLane(P: Plane, xi: int, yi: int, R: seq<seq<byte>>, j: nat, c: nat)
    requires P.Valid() && Rows(P, xi, yi, R) && j < 4 && c < 8
    ensures Vertical(R, j)[c] == Round5(H1At(P, xi - 2 + c, yi + j))
  {
    hide Pix, Tap6, Tap6v, SatU8, SatU16, Round5, Round10;
    Tap6vLane(R[j][..8], R[j + 1][..8], R[j + 2][..8], R[j + 3][..8], R[j + 4][..8], R[j + 5][..8], c);
    NarrowIsClip(H1At(P, xi - 2 + c, yi + j));
  }

  lemma CentreLane(P: Plane, xi: int, yi: int, R: seq<seq<byte>>, j: nat, i: nat)
    requires P.Valid() && Rows(P, xi, yi, R) && j < 4 && i < 4
    ensures Centre(R, j)[i] == Round10(J1At(P, xi + i, yi + j))
  {
    hide Pix, Tap6, Tap6h, Tap6l, SatU8, SatU16, Round5, Round10, B1At, IsSum, Horizontal;
    HorizontalLane(P, xi, yi, R, j, i);
    HorizontalLane(P, xi, yi, R, j + 1, i);
    HorizontalLane(P, xi, yi, R, j + 2, i);
    HorizontalLane(P, xi, yi, R, j + 3, i);
    HorizontalLane(P, xi, yi, R, j + 4, i);
    HorizontalLane(P, xi, yi, R, j + 5, i);
    Tap6lLane(Tap6h(R[j])[..4], Tap6h(R[j + 1])[..4], Tap6h(R[j + 2])[..4],
              Tap6h(R[j + 3])[..4], Tap6h(R[j + 4])[..4], Tap6h(R[j + 5])[..4], i);
    NarrowIsClip(J1At(P, xi + i, yi + j));
  }

  lemma RhaddLane(a: Lanes, b: Lanes, i: nat)
    requires |a| == |b| && i < |a|
    ensures Rhadd(a, b)[i] == Avg2(a[i], b[i]) == Avg2(b[i], a[i])
  {
  }

  lemma ExtLane(v: Lanes, k: nat, i: nat)
    requires k + i < |v|
    ensures Ext(v, v, k)[i] == v[k + i]
  {
  }

  /** Every lane that is kept equals the sample-at-a-time interpolation. */
  lemma NeonRowIs(P: Plane, xi: int, yi: int, R: seq<seq<byte>>, fx: nat, fy: nat, j: nat, i: nat)
    requires P.Valid() && Rows(P, xi, yi, R) && fx < 4 && fy < 4 && j < 4 && i < 4
    ensures NeonRow(R, fx, fy, j)[i] == LumaQpel(P, xi + i, yi + j, fx, fy)
  {
    if fy == 0 {
      NeonRowOnLine(P, xi, yi, R, fx, j, i);
    } else if fx == 0 {
      NeonRowOnColumn(P, xi, yi, R, fy, j, i);
    } else {
      NeonRowBetween(P, xi, yi, R, fx, fy, j, i);
    }
  }

  lemma NeonRowOnLine(P: Plane, xi: int, yi: int, R: seq<seq<byte>>, fx: nat, j: nat, i: nat)
    requires P.Valid() && Rows(P, xi, yi, R) && fx < 4 && j < 4 && i < 4
    ensures NeonRow(R, fx, 0, j)[i] == LumaQpel(P, xi + i, yi + j, fx, 0)
  {
    hide Pix, B1At, H1At, J1At, Round5, Round10, Horizontal, Vertical, Centre, Col, Rhadd, Ext, Avg2;
    var cx := if fx == 1 then 2 else 3;
    ColLane(R, j + 2, 2, i);
    ColLane(R, j + 2, cx, i);
    HorizontalLane(P, xi, yi, R, j + 2, i);
    RhaddLane(Horizontal(R, j + 2), Col(R, j + 2, cx), i);
  }

  lemma NeonRowOnColumn(P: Plane, xi: int, yi: int, R: seq<seq<byte>>, fy: nat, j: nat, i: nat)
    requires P.Valid() && Rows(P, xi, yi, R) && 0 < fy < 4 && j < 4 && i < 4
    ensures NeonRow(R, 0, fy, j)[i] == LumaQpel(P, xi + i, yi + j, 0, fy)
  {
    hide Pix, B1At, H1At, J1At, Round5, Round10, Horizontal, Vertical, Centre, Col, Rhadd, Ext, Avg2;
    var ry := if fy == 1 then 2 else 3;
    ColLane(R, j + ry, 2, i);
    VerticalLane(P, xi, yi, R, j, i + 2);
    ExtLane(Vertical(R, j), 2, i);
    RhaddLane(Ext(Vertical(R, j), Vertical(R, j), 2), Col(R, j + ry, 2), i);
  }

  lemma NeonRowBetween(P: Plane, xi: int, yi: int, R: seq<seq<byte>>, fx: nat, fy: nat, j: nat, i: nat)
    requires P.Valid() && Rows(P, xi, yi, R) && 0 < fx < 4 && 0 < fy < 4 && j < 4 && i < 4
    ensures NeonRow(R, fx, fy, j)[i] == LumaQpel(P, xi + i, yi + j, fx, fy)
  {
    hide Pix, B1At, H1At, J1At, Round5, Round10, Horizontal, Vertical, Centre, Col, Rhadd, Ext, Avg2;
    var ry, cx := if fy == 1 then 2 else 3, if fx == 1 then 2 else 3;
    var v := Ext(Vertical(R, j), Vertical(R, j), cx);
    HorizontalLane(P, xi, yi, R, j + ry, i);
    VerticalLane(P, xi, yi, R, j, cx + i);
    CentreLane(P, xi, yi, R, j, i);
    ExtLane(Vertical(R, j), cx, i);
    RhaddLane(Centre(R, j), Horizontal(R, j + ry), i);
    RhaddLane(Centre(R, j), v, i);
    RhaddLane(Horizontal(R, j + ry), v, i);
  }

  /** A 16-byte load reaches past the last sample it uses, into what follows the plane. */
  lemma LoadStays(w: nat, h: nat, x: nat, y: nat)
    requires x + 9 <= w && y < h
    ensures y * w + x + 16 <= w * h + 7
  {
    MulAtLeast(h - y, w);
    assert (h - y) * w == h * w - y * w;
  }

  method LoadRows(P: Plane, xi: int, yi: int) returns (R: seq<seq<byte>>)
    requires P.Valid() && |P.px| >= P.w * P.h + 7
    requires xi - 2 >= 0 && yi - 2 >= 0 && xi + 6 <= P.w - 1 && yi + 6 <= P.h - 1
    ensures Rows(P, xi, yi, R)
  {
    hide Pix;
    R := [];
    for r := 0 to 9
      invariant |R| == r && forall k :: 0 <= k < r ==> |R[k]| == 16
      invariant forall k, c :: 0 <= k < r && 0 <= c < 9 ==> R[k][c] == Pix(P, xi - 2 + c, yi - 2 + k)
    {
      var row := LoadRow(P, xi - 2, yi - 2 + r);
      R := R + [row];
    }
  }

  /** One 16-byte load. */
  method LoadRow(P: Plane, x: int, y: int) returns (row: seq<byte>)
    requires P.Valid() && |P.px| >= P.w * P.h + 7 && 0 <= x && x + 9 <= P.w && 0 <= y < P.h
    ensures |row| == 16 && forall c :: 0 <= c < 9 ==> row[c] == Pix(P, x + c, y)
  {
    hide Pix;
    LoadStays(P.w, P.h, x, y);
    var base := y * P.w + x;
    PixInside(P, x, y);
    row := P.px[base..base + 16];
    forall c | 0 <= c < 9 ensures row[c] == Pix(P, x + c, y) {
      PixInside(P, x + c, y);
    }
  }

  /** mc_luma4_neon: for every plane, position and vector the four rows hold, in lanes 0..3,
      exactly the samples of the C routine; blocks near the border take the C routine itself. */
  method McLuma4Neon(P: Plane, x: int, y: int, mvx: int, mvy: int) returns (out: seq<Lanes>)
    requires P.Valid() && |P.px| >= P.w * P.h + 7
    ensures |out| == 4 && forall j :: 0 <= j < 4 ==> |out[j]| == 8
    ensures forall j, i :: 0 <= j < 4 && 0 <= i < 4 ==>
              out[j][i] == LumaQpel(P, x + mvx / 4 + i, y + mvy / 4 + j, mvx % 4, mvy % 4)
  {
    hide Pix, LumaQpel, NeonRow, Filled;
    var xi, yi, fx, fy := x + mvx / 4, y + mvy / 4, mvx % 4, mvy % 4;
    out := [];
    if xi - 2 < 0 || yi - 2 < 0 || xi + 6 > P.w - 1 || yi + 6 > P.h - 1 {
      var t := new int[16];
      McLumaBlock(P, x, y, 4, 4, mvx, mvy, t);
      for j := 0 to 4
        invariant |out| == j && forall k :: 0 <= k < j ==> |out[k]| == 8
        invariant forall k, i :: 0 <= k < j && 0 <= i < 4 ==> out[k][i] == LumaQpel(P, xi + i, yi + k, fx, fy)
      {
        var row := [t[j * 4], t[j * 4 + 1], t[j * 4 + 2], t[j * 4 + 3], 0, 0, 0, 0];
        forall i | 0 <= i < 4 ensures row[i] == LumaQpel(P, xi + i, yi + j, fx, fy) {
          FilledAt(P, xi, yi, 4, 4, fx, fy, t, j, i);
        }
        out := out + [row];
      }
    } else {
      var R := LoadRows(P, xi, yi);
      for j := 0 to 4
        invariant |out| == j && forall k :: 0 <= k < j ==> |out[k]| == 8
        invariant forall k, i :: 0 <= k < j && 0 <= i < 4 ==> out[k][i] == LumaQpel(P, xi + i, yi + k, fx, fy)
      {
        var row := NeonRow(R, fx, fy, j);
        forall i | 0 <= i < 4 ensures row[i] == LumaQpel(P, xi + i, yi + j, fx, fy) {
          NeonRowIs(P, xi, yi, R, fx, fy, j, i);
        }
        out := out + [row];
      }
    }
  }
}
