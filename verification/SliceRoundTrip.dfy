/** A decoder that replays the same neighbour state recovers every decision of a slice. */
module SliceRoundTrip {
  import opened Wrappers
  import opened Bits
  import opened ExpGolomb
  import opened BitWriter
  import opened MotionVectors
  import opened Macroblocks
  import opened SliceSyntax
  import opened SliceDecoder

  // ---------------------------------------------------------------- macroblock pieces

  lemma MvRoundTrip(s: seq<bool>, p: nat, g: Grid, x: int, y: int, w: nat, r: int, mv: Mv)
    requires At(s, p, MvBits(g, x, y, w, r, mv))
    ensures ParseMv(s, p, g, x, y, w, r) == Some((mv, p + |MvBits(g, x, y, w, r, mv)|))
  {
    hide SeBits, ReadSe, At, Mvp, Predicted;
    var a := Mvp(g, x, y, w, r);
    MvpIsStandard(g, x, y, w, r);
    AtConcat(s, p, SeBits(mv.0 - a.0), SeBits(mv.1 - a.1));
    ReadSeAt(s, p, mv.0 - a.0);
    ReadSeAt(s, p + |SeBits(mv.0 - a.0)|, mv.1 - a.1);
  }

  lemma {:induction false} SplitRoundTrip(s: seq<bool>, p: nat, g: Grid, qx: int, qy: int, ref: nat, mvs: seq<Mv>, i: nat)
    requires i <= 4 && |mvs| == 4
    requires At(s, p, SplitBits(g, qx, qy, ref, mvs, i))
    ensures ParseSplit(s, p, g, qx, qy, ref, i)
         == Some((SplitParts(qx, qy, ref, mvs, i), p + |SplitBits(g, qx, qy, ref, mvs, i)|,
                  SplitGrid(g, qx, qy, ref, mvs, i)))
    decreases 4 - i
  {
    hide MvBits, ParseMv, At, SetBlk, BlkX, BlkY;
    if i < 4 {
      var x, y := BlkX(qx, i), BlkY(qy, i);
      var c := MvBits(g, x, y, 1, ref, mvs[i]);
      var g' := SetBlk(g, x, y, 1, 1, Cell(ref, mvs[i]));
      AtConcat(s, p, c, SplitBits(g', qx, qy, ref, mvs, i + 1));
      MvRoundTrip(s, p, g, x, y, 1, ref, mvs[i]);
      SplitRoundTrip(s, p + |c|, g', qx, qy, ref, mvs, i + 1);
    }
  }

  lemma SubRoundTrip(s: seq<bool>, p: nat, g: Grid, qx: int, qy: int, sub: Sub)
    requires sub.Split? ==> |sub.mvs| == 4
    requires At(s, p, SubBits(g, qx, qy, sub))
    ensures ParseSub(s, p, g, qx, qy, SubType(sub), sub.ref)
         == Some((SubParts(qx, qy, sub), p + |SubBits(g, qx, qy, sub)|, SubGrid(g, qx, qy, sub)))
  {
    hide MvBits, ParseMv, At, SetBlk, SplitBits, ParseSplit, SplitParts, SplitGrid;
    match sub {
      case Whole(r, mv) => MvRoundTrip(s, p, g, qx, qy, 2, r, mv);
      case Split(r, mvs) => SplitRoundTrip(s, p, g, qx, qy, r, mvs, 0);
    }
  }

  function TypesOf(subs: seq<Sub>): (ts: seq<nat>)
    ensures |ts| == |subs| && forall i :: 0 <= i < |subs| ==> ts[i] == SubType(subs[i])
  {
    if |subs| == 0 then [] else [SubType(subs[0])] + TypesOf(subs[1..])
  }

  function RefsOf(subs: seq<Sub>): (rs: seq<nat>)
    ensures |rs| == |subs| && forall i :: 0 <= i < |subs| ==> rs[i] == subs[i].ref
  {
    if |subs| == 0 then [] else [subs[0].ref] + RefsOf(subs[1..])
  }

  lemma {:induction false} TypesRoundTrip(s: seq<bool>, p: nat, subs: seq<Sub>)
    requires At(s, p, TypesBits(subs))
    ensures ParseTypes(s, p, |subs|) == Some((TypesOf(subs), p + |TypesBits(subs)|))
    decreases subs
  {
    hide At, UeBits, ReadUe;
    if |subs| != 0 {
      var c := UeBits(SubType(subs[0]));
      AtConcat(s, p, c, TypesBits(subs[1..]));
      ReadUeAt(s, p, SubType(subs[0]));
      TypesRoundTrip(s, p + |c|, subs[1..]);
    }
  }

  lemma {:induction false} RefsRoundTrip(s: seq<bool>, p: nat, nref: nat, subs: seq<Sub>)
    requires forall i :: 0 <= i < |subs| ==> subs[i].ref < nref
    requires At(s, p, RefsBits(nref, subs))
    ensures ParseRefs(s, p, nref, |subs|) == Some((RefsOf(subs), p + |RefsBits(nref, subs)|))
    decreases subs
  {
    hide At, TeBits, ReadTe;
    if |subs| != 0 {
      var c := TeBits(nref, subs[0].ref);
      AtConcat(s, p, c, RefsBits(nref, subs[1..]));
      ReadTeAt(s, p, nref, subs[0].ref);
      RefsRoundTrip(s, p + |c|, nref, subs[1..]);
    }
  }

  lemma {:induction false} SubsRoundTrip(s: seq<bool>, p: nat, g: Grid, x4: int, y4: int, nref: nat, subs: seq<Sub>, i: nat)
    requires i <= 4 && ValidSubs(subs, nref)
    requires At(s, p, SubsBits(g, x4, y4, nref, subs, i))
    ensures ParseSubs(s, p, g, x4, y4, TypesOf(subs), RefsOf(subs), i)
         == Some((SubsParts(x4, y4, nref, subs, i), p + |SubsBits(g, x4, y4, nref, subs, i)|,
                  SubsGrid(g, x4, y4, nref, subs, i)))
    decreases 4 - i
  {
    hide At, SubBits, ParseSub, SubParts, SubGrid, SubX, SubY, TypesOf, RefsOf;
    if i < 4 {
      assert ValidSub(subs[i], nref);
      var qx, qy := SubX(x4, i), SubY(y4, i);
      var c, g' := SubBits(g, qx, qy, subs[i]), SubGrid(g, qx, qy, subs[i]);
      AtConcat(s, p, c, SubsBits(g', x4, y4, nref, subs, i + 1));
      SubRoundTrip(s, p, g, qx, qy, subs[i]);
      SubsRoundTrip(s, p + |c|, g', x4, y4, nref, subs, i + 1);
    }
  }

  lemma CbpRoundTrip(s: seq<bool>, p: nat)
    requires At(s, p, UeBits(0))
    ensures ParseCbp(s, p) == Some(p + |UeBits(0)|)
  {
    ReadUeAt(s, p, 0);
  }

  // ---------------------------------------------------------------- macroblocks

  lemma Inter16RoundTrip(s: seq<bool>, p: nat, g: Grid, x4: int, y4: int, nref: nat, r: nat, mv: Mv)
    requires r < nref && At(s, p, Inter16Bits(g, x4, y4, nref, r, mv))
    ensures ParseMb(s, p, g, x4, y4, nref)
         == Some((Record([Part(4 * x4, 4 * y4, 16, 16, r, mv)], []),
                  p + |Inter16Bits(g, x4, y4, nref, r, mv)|, SetBlk(g, x4, y4, 4, 4, Cell(r, mv))))
  {
    hide At, UeBits, ReadUe, TeBits, ReadTe, MvBits, ParseMv, ParseCbp, SetBlk, ParseInter8, ParsePcm;
    var a, b, c, d := UeBits(0), TeBits(nref, r), MvBits(g, x4, y4, 4, r, mv), UeBits(0);
    AtConcat(s, p, a + b + c, d);
    AtConcat(s, p, a + b, c);
    AtConcat(s, p, a, b);
    ReadUeAt(s, p, 0);
    ReadTeAt(s, p + |a|, nref, r);
    MvRoundTrip(s, p + |a + b|, g, x4, y4, 4, r, mv);
    CbpRoundTrip(s, p + |a + b + c|);
  }

  lemma Inter8RoundTrip(s: seq<bool>, p: nat, g: Grid, x4: int, y4: int, nref: nat, subs: seq<Sub>)
    requires ValidSubs(subs, nref)
    requires At(s, p, Inter8Bits(g, x4, y4, nref, subs))
    ensures ParseMb(s, p, g, x4, y4, nref)
         == Some((Record(SubsParts(x4, y4, nref, subs, 0), []), p + |Inter8Bits(g, x4, y4, nref, subs)|,
                  SubsGrid(g, x4, y4, nref, subs, 0)))
  {
    hide At, UeBits, ReadUe, TypesBits, RefsBits, SubsBits, ParseTypes, ParseRefs, ParseSubs, ParseCbp,
         SubsParts, SubsGrid, TypesOf, RefsOf, ParseInter16, ParsePcm;
    var a, b, c, d, e := UeBits(3), TypesBits(subs), RefsBits(nref, subs),
                         SubsBits(g, x4, y4, nref, subs, 0), UeBits(0);
    AtConcat(s, p, a + b + c + d, e);
    AtConcat(s, p, a + b + c, d);
    AtConcat(s, p, a + b, c);
    AtConcat(s, p, a, b);
    forall i | 0 <= i < |subs| ensures subs[i].ref < nref { assert ValidSub(subs[i], nref); }
    ReadUeAt(s, p, 3);
    TypesRoundTrip(s, p + |a|, subs);
    RefsRoundTrip(s, p + |a + b|, nref, subs);
    SubsRoundTrip(s, p + |a + b + c|, g, x4, y4, nref, subs, 0);
    CbpRoundTrip(s, p + |a + b + c + d|);
  }

  lemma AlignedEnd(p: nat)
    ensures (p + 7) / 8 * 8 == p + Padding(p)
  {
  }

  lemma PcmRoundTrip(s: seq<bool>, p: nat, g: Grid, x4: int, y4: int, nref: nat, samples: seq<byte>)
    requires |samples| == PCM_BYTES && At(s, p, PcmBits(p, samples))
    ensures ParseMb(s, p, g, x4, y4, nref)
         == Some((Record([Part(4 * x4, 4 * y4, 16, 16, -1, (0, 0))], samples),
                  p + |PcmBits(p, samples)|, SetBlk(g, x4, y4, 4, 4, Cell(-1, (0, 0)))))
  {
    hide UeBits, ReadUe, SetBlk, ParseInter8, ParseInter16, BytesToBits, BitsToBytes, Zeros, Padding;
    var a := UeBits(I_PCM_IN_P);
    var p1 := p + |a|;
    var z, b := Zeros(Padding(p1)), BytesToBits(samples);
    AtConcat(s, p, a + z, b);
    AtConcat(s, p, a, z);
    ReadUeAt(s, p, I_PCM_IN_P);
    AlignedEnd(p1);
    var q := p1 + |z|;
    forall i | p1 <= i < q ensures !s[i] { assert !z[i - p1] && s[p1 + (i - p1)] == z[i - p1]; }
    assert s[q..q + 8 * PCM_BYTES] == b;
    BytesRoundTrip(samples);
  }

  lemma MbRoundTrip(s: seq<bool>, p: nat, g: Grid, x4: int, y4: int, nref: nat, d: Decision)
    requires nref > 0 && Valid(d, nref)
    requires At(s, p, MbBits(g, x4, y4, nref, d, p))
    ensures ParseMb(s, p, g, x4, y4, nref)
         == Some((RecordOf(x4, y4, nref, d), p + |MbBits(g, x4, y4, nref, d, p)|, MbGrid(g, x4, y4, nref, d)))
  {
    hide At, ParseMb, Inter16Bits, Inter8Bits, PcmBits, SetBlk, SubsGrid, SubsParts;
    match d {
      case Background => Inter16RoundTrip(s, p, g, x4, y4, nref, 0, (0, 0));
      case Pcm(samples) => PcmRoundTrip(s, p, g, x4, y4, nref, samples);
      case Inter16(r, mv) => Inter16RoundTrip(s, p, g, x4, y4, nref, r, mv);
      case Inter8(subs) => Inter8RoundTrip(s, p, g, x4, y4, nref, subs);
    }
  }

  // ---------------------------------------------------------------- the slice

  /** A skipped macroblock decodes to reference 0 and the zero vector: one more of the run. */
  lemma SkipOneMore(g0: Grid, ds: seq<Decision>, wmb: nat, nref: nat, m0: nat, skip: nat, g: Grid)
    requires wmb > 0 && AllValid(ds, nref) && m0 + skip < |ds|
    requires SkipRun(g0, wmb, m0, skip) == (Records(ds, wmb, nref, m0, m0 + skip), g)
    requires IsSkipped(g, MbX(wmb, m0 + skip), MbY(wmb, m0 + skip), ds[m0 + skip])
    ensures SkipRun(g0, wmb, m0, skip + 1)
         == (Records(ds, wmb, nref, m0, m0 + skip + 1),
             MbGrid(g, MbX(wmb, m0 + skip), MbY(wmb, m0 + skip), nref, ds[m0 + skip]))
  {
    hide SetBlk, MbX, MbY, PskipMv, Skipped;
    PskipIsStandard(g, MbX(wmb, m0 + skip), MbY(wmb, m0 + skip));
  }

  lemma {:induction false} RecordsConcat(ds: seq<Decision>, wmb: nat, nref: nat, a: nat, b: nat, c: nat)
    requires wmb > 0 && AllValid(ds, nref) && a <= b <= c <= |ds|
    ensures Records(ds, wmb, nref, a, c) == Records(ds, wmb, nref, a, b) + Records(ds, wmb, nref, b, c)
  {
    hide RecordAt;
    if b < c { RecordsConcat(ds, wmb, nref, a, b, c - 1); }
  }

  /** Nothing is left to write only at the end, with no skip pending. */
  lemma {:induction false} EncodeFromEmpty(ds: seq<Decision>, wmb: nat, nref: nat, m: nat, g: Grid, skip: nat, pos: nat)
    requires wmb > 0 && AllValid(ds, nref) && m <= |ds| && (m < |ds| || skip > 0)
    ensures EncodeFrom(ds, wmb, nref, m, g, skip, pos) != []
    decreases |ds| - m
  {
    hide UeBits, MbBits, MbGrid, MbX, MbY, IsSkipped;
    if m < |ds| {
      var x4, y4, d := MbX(wmb, m), MbY(wmb, m), ds[m];
      if IsSkipped(g, x4, y4, d) {
        EncodeFromEmpty(ds, wmb, nref, m + 1, MbGrid(g, x4, y4, nref, d), skip + 1, pos);
      }
    }
  }

  /** The decoder stands before macroblock m0; the encoder has skipped m0 .. m - 1 since. */
  ghost predicate InStep(g0: Grid, ds: seq<Decision>, wmb: nat, nref: nat, m0: nat, m: nat, g: Grid)
    requires wmb > 0 && AllValid(ds, nref) && m0 <= m <= |ds|
  {
    SkipRun(g0, wmb, m0, m - m0) == (Records(ds, wmb, nref, m0, m), g)
  }

  /** Whatever the decisions, the decoder recovers the records of all remaining macroblocks. */
  lemma {:induction false} SliceRoundTripFrom(
      s: seq<bool>, pos: nat, ds: seq<Decision>, wmb: nat, nref: nat, m0: nat, g0: Grid, m: nat, g: Grid)
    requires wmb > 0 && nref > 0 && AllValid(ds, nref) && m0 <= m <= |ds| && m0 < |ds|
    requires InStep(g0, ds, wmb, nref, m0, m, g)
    requires At(s, pos, EncodeFrom(ds, wmb, nref, m, g, m - m0, pos))
    requires LastOne(s) == pos + |EncodeFrom(ds, wmb, nref, m, g, m - m0, pos)|
    ensures ParseSlice(s, pos, wmb, |ds|, nref, m0, g0) == Some(Records(ds, wmb, nref, m0, |ds|))
    decreases |ds| - m
  {
    hide At, UeBits, ReadUe, MbBits, MbGrid, MbX, MbY, IsSkipped, ParseMb, SkipRun, Records, RecordOf;
    var n, skip := |ds|, m - m0;
    if m == n {
      ReadUeAt(s, pos, skip);
    } else if IsSkipped(g, MbX(wmb, m), MbY(wmb, m), ds[m]) {
      SkipOneMore(g0, ds, wmb, nref, m0, skip, g);
      SliceRoundTripFrom(s, pos, ds, wmb, nref, m0, g0, m + 1, MbGrid(g, MbX(wmb, m), MbY(wmb, m), nref, ds[m]));
    } else {
      CodedMacroblock(s, pos, ds, wmb, nref, m0, g0, m, g);
    }
  }

  lemma EmptyRun(ds: seq<Decision>, wmb: nat, nref: nat, m: nat, g: Grid)
    requires wmb > 0 && AllValid(ds, nref) && m <= |ds|
    ensures InStep(g, ds, wmb, nref, m, m, g)
  {
  }

  /** A macroblock that is not skipped: the run before it, the layer itself, and the rest. */
  lemma {:induction false} CodedMacroblock(
      s: seq<bool>, pos: nat, ds: seq<Decision>, wmb: nat, nref: nat, m0: nat, g0: Grid, m: nat, g: Grid)
    requires wmb > 0 && nref > 0 && AllValid(ds, nref) && m0 <= m < |ds|
    requires InStep(g0, ds, wmb, nref, m0, m, g)
    requires !IsSkipped(g, MbX(wmb, m), MbY(wmb, m), ds[m])
    requires At(s, pos, EncodeFrom(ds, wmb, nref, m, g, m - m0, pos))
    requires LastOne(s) == pos + |EncodeFrom(ds, wmb, nref, m, g, m - m0, pos)|
    ensures ParseSlice(s, pos, wmb, |ds|, nref, m0, g0) == Some(Records(ds, wmb, nref, m0, |ds|))
    decreases |ds| - m, 0
  {
    hide At, UeBits, ReadUe, MbBits, MbGrid, MbX, MbY, IsSkipped, ParseMb, SkipRun, Records, RecordOf, EncodeFrom, LastOne;
    var n, skip := |ds|, m - m0;
    var x4, y4, d := MbX(wmb, m), MbY(wmb, m), ds[m];
    var a := UeBits(skip);
    var b := MbBits(g, x4, y4, nref, d, pos + |a|);
    var g' := MbGrid(g, x4, y4, nref, d);
    var p2 := pos + |a + b|;
    var rest := EncodeFrom(ds, wmb, nref, m + 1, g', 0, p2);
    EncodeCoded(ds, wmb, nref, m, g, skip, pos);
    AtConcat(s, pos, a + b, rest);
    AtConcat(s, pos, a, b);
    ReadUeAt(s, pos, skip);
    MbRoundTrip(s, pos + |a|, g, x4, y4, nref, d);
    MbBitsNonempty(g, x4, y4, nref, d, pos + |a|);
    RecordsSnoc(ds, wmb, nref, m0, m);
    if m + 1 < n {
      EmptyRun(ds, wmb, nref, m + 1, g');
      EncodeFromEmpty(ds, wmb, nref, m + 1, g', 0, p2);
      SliceRoundTripFrom(s, p2, ds, wmb, nref, m + 1, g', m + 1, g');
      RecordsConcat(ds, wmb, nref, m0, m + 1, n);
    } else {
      EncodeNone(ds, wmb, nref, g', p2);
    }
  }

  /** What is written from a macroblock on that is not skipped. */
  lemma EncodeCoded(ds: seq<Decision>, wmb: nat, nref: nat, m: nat, g: Grid, skip: nat, pos: nat)
    requires wmb > 0 && AllValid(ds, nref) && m < |ds| && !IsSkipped(g, MbX(wmb, m), MbY(wmb, m), ds[m])
    ensures var x4, y4, d := MbX(wmb, m), MbY(wmb, m), ds[m];
            var c := UeBits(skip) + MbBits(g, x4, y4, nref, d, pos + |UeBits(skip)|);
            EncodeFrom(ds, wmb, nref, m, g, skip, pos)
            == c + EncodeFrom(ds, wmb, nref, m + 1, MbGrid(g, x4, y4, nref, d), 0, pos + |c|)
  {
    hide UeBits, MbBits, MbGrid, MbX, MbY, IsSkipped;
  }

  lemma EncodeNone(ds: seq<Decision>, wmb: nat, nref: nat, g: Grid, pos: nat)
    requires wmb > 0 && AllValid(ds, nref)
    ensures EncodeFrom(ds, wmb, nref, |ds|, g, 0, pos) == []
  {
  }

  lemma MbBitsNonempty(g: Grid, x4: int, y4: int, nref: nat, d: Decision, pos: nat)
    requires Valid(d, nref)
    ensures MbBits(g, x4, y4, nref, d, pos) != []
  {
    hide UeBits;
  }

  lemma RecordsSnoc(ds: seq<Decision>, wmb: nat, nref: nat, m0: nat, m: nat)
    requires wmb > 0 && AllValid(ds, nref) && m0 <= m < |ds|
    ensures Records(ds, wmb, nref, m0, m + 1) == Records(ds, wmb, nref, m0, m) + [RecordAt(ds, wmb, nref, m)]
  {
  }

  lemma {:induction false} LastOneTrailing(a: seq<bool>, z: nat)
    ensures LastOne(a + [true] + Zeros(z)) == |a|
  {
    var s := a + [true] + Zeros(z);
    if z != 0 {
      LastOneTrailing(a, z - 1);
      assert s[..|s| - 1] == a + [true] + Zeros(z - 1);
    }
  }

  /** For every header, every picture width and every list of decisions, the decoder recovers
      exactly what the generator recorded: all partitions, in order, and all I_PCM samples. */
  lemma SliceDecodes(header: seq<bool>, ds: seq<Decision>, wmb: nat, nref: nat)
    requires wmb > 0 && nref > 0 && |ds| > 0 && AllValid(ds, nref)
    ensures ParseSlice(SliceRbsp(header, ds, wmb, nref), |header|, wmb, |ds|, nref, 0, map[])
         == Some(Records(ds, wmb, nref, 0, |ds|))
  {
    hide EncodeFrom, Records, ParseSlice, LastOne;
    var e := EncodeFrom(ds, wmb, nref, 0, map[], 0, |header|);
    var body := header + e;
    var z := Zeros(Padding(|body| + 1));
    var s := SliceRbsp(header, ds, wmb, nref);
    assert s == body + [true] + z;
    LastOneTrailing(body, Padding(|body| + 1));
    assert At(s, |header|, e);
    EmptyRun(ds, wmb, nref, 0, map[]);
    SliceRoundTripFrom(s, |header|, ds, wmb, nref, 0, map[], 0, map[]);
  }
}
