/** The Bad Apple delta stream: every K-th frame whole, the others as the bytes that changed,
    flattened into one list of integers with an index, and played in a loop. */
module DeltaStream {
  import opened Wrappers
  import opened Bits

  type Frame = seq<byte>

  const ENTRY := 0x4_0000     // one change entry takes 18 bits
  const LIMIT := 0x10_0000_0000

  /** What the program prints: the integers of all frames, where each frame's begin (and one more
      at the end), and each frame's number of change entries. */
  datatype Stream = Stream(data: seq<int>, starts: seq<nat>, ns: seq<nat>, nframes: nat, keyint: nat)

  /** Keyframes of whole integers, and offsets that fit an entry. */
  predicate ValidLength(len: nat) { len % 4 == 0 && 0 < len <= 1024 }

  predicate AllLength(frames: seq<Frame>, len: nat) { forall f :: 0 <= f < |frames| ==> |frames[f]| == len }

  // ---------------------------------------------------------------- one frame

  function Word(b0: byte, b1: byte, b2: byte, b3: byte): int { b0 + 0x100 * b1 + 0x1_0000 * b2 + 0x100_0000 * b3 }

  function KeyInts(fb: Frame): seq<int> {
    seq(|fb| / 4, i requires 0 <= i < |fb| / 4 => Word(fb[4 * i], fb[4 * i + 1], fb[4 * i + 2], fb[4 * i + 3]))
  }

  /** The changes below offset k, in ascending order. */
  function Entries(prev: Frame, fb: Frame, k: nat): (es: seq<int>)
    requires |prev| == |fb| && k <= |fb|
    ensures forall i :: 0 <= i < |es| ==> 0 <= es[i] < 256 * k
  {
    if k == 0 then []
    else Entries(prev, fb, k - 1) + (if fb[k - 1] == prev[k - 1] then [] else [(k - 1) * 256 + fb[k - 1]])
  }

  /** Two entries an integer, the first in the high bits; an odd one out has a low half of 0. */
  function Pack(es: seq<int>): (r: seq<int>)
    ensures |r| == (|es| + 1) / 2
  {
    seq((|es| + 1) / 2, j requires 0 <= j < (|es| + 1) / 2 =>
      es[2 * j] * ENTRY + (if 2 * j + 1 < |es| then es[2 * j + 1] else 0))
  }

  predicate IsKey(keyint: nat, f: nat)
    requires keyint > 0
  {
    f % keyint == 0
  }

  function Changes(frames: seq<Frame>, f: nat): seq<int>
    requires 0 < f < |frames| && |frames[f - 1]| == |frames[f]|
  {
    Entries(frames[f - 1], frames[f], |frames[f]|)
  }

  /** The integers of frame f. */
  function FrameInts(frames: seq<Frame>, keyint: nat, f: nat): seq<int>
    requires keyint > 0 && f < |frames| && AllLength(frames, |frames[0]|)
  {
    if IsKey(keyint, f) then KeyInts(frames[f]) else Pack(Changes(frames, f))
  }

  function FrameCount(frames: seq<Frame>, keyint: nat, f: nat): nat
    requires keyint > 0 && f < |frames| && AllLength(frames, |frames[0]|)
  {
    if IsKey(keyint, f) then 0 else |Changes(frames, f)|
  }

  // ---------------------------------------------------------------- the whole stream

  /** The integers of the first n frames. */
  function Data(frames: seq<Frame>, keyint: nat, n: nat): seq<int>
    requires keyint > 0 && n <= |frames| && (n > 0 ==> AllLength(frames, |frames[0]|))
  {
    if n == 0 then [] else Data(frames, keyint, n - 1) + FrameInts(frames, keyint, n - 1)
  }

  function Encoded(frames: seq<Frame>, keyint: nat): Stream
    requires keyint > 0 && |frames| > 0 && AllLength(frames, |frames[0]|)
  {
    Stream(Data(frames, keyint, |frames|),
           seq(|frames| + 1, f requires 0 <= f <= |frames| => |Data(frames, keyint, f)|),
           seq(|frames|, f requires 0 <= f < |frames| => FrameCount(frames, keyint, f)),
           |frames|, keyint)
  }

  // ---------------------------------------------------------------- the decoder

  /** decodeOled: whole frame, the tail zero. */
  function Byte(v: int, k: nat): byte
    requires k < 4
  {
    if k == 0 then v % 256 else if k == 1 then v / 0x100 % 256 else if k == 2 then v / 0x1_0000 % 256 else v / 0x100_0000 % 256
  }

  function Full(bitmap: seq<int>, len: nat): Frame {
    seq(len, i requires 0 <= i < len => if i / 4 < |bitmap| && i / 4 < len / 4 then Byte(bitmap[i / 4], i % 4) else 0)
  }

  function Entry(ints: seq<int>, i: nat): int
    requires i / 2 < |ints|
  {
    var v := ints[i / 2];
    if i % 2 == 0 then v / ENTRY % ENTRY else v % ENTRY
  }

  /** An entry past the end of the frame is skipped. */
  function Store(fb: Frame, e: int): Frame
    requires e >= 0
  {
    if e / 256 < |fb| then fb[e / 256 := e % 256] else fb
  }

  /** applyOverlay: n entries, or as many as there are. */
  function Applied(ints: seq<int>, n: nat, fb: Frame): Frame {
    if n == 0 then fb
    else
      var before := Applied(ints, n - 1, fb);
      if (n - 1) / 2 < |ints| then Store(before, Entry(ints, n - 1)) else before
  }

  /** The program's own slice of frame i. */
  function Slice(st: Stream, i: nat): seq<int>
    requires i + 1 < |st.starts| && StartOk(st, i)
  {
    st.data[st.starts[i]..st.starts[i + 1]]
  }

  predicate StartOk(st: Stream, i: nat)
    requires i + 1 < |st.starts|
  {
    st.starts[i] <= st.starts[i + 1] <= |st.data|
  }

  predicate WellFormed(st: Stream) {
    && st.nframes > 0 && st.keyint > 0 && |st.starts| == st.nframes + 1 && |st.ns| == st.nframes
    && forall i :: 0 <= i < st.nframes ==> StartOk(st, i)
  }

  /** The frame shown for a frameIndex of t, over what the panel shows. */
  function Show(st: Stream, t: nat, fb: Frame): Frame
    requires WellFormed(st)
  {
    var i := t % st.nframes;
    var b := Slice(st, i);
    if i % st.keyint == 0 then Full(b, |fb|) else Applied(b, st.ns[i], fb)
  }

  /** frameIndex runs from 0 to t. */
  function Play(st: Stream, t: nat, panel: Frame): Frame
    requires WellFormed(st)
  {
    Show(st, t, if t == 0 then panel else Play(st, t - 1, panel))
  }

  // ---------------------------------------------------------------- keyframes

  lemma ByteOfWord(b0: byte, b1: byte, b2: byte, b3: byte)
    ensures var v := Word(b0, b1, b2, b3);
            Byte(v, 0) == b0 && Byte(v, 1) == b1 && Byte(v, 2) == b2 && Byte(v, 3) == b3
  {
    var v := Word(b0, b1, b2, b3);
    var high3, high2 := b1 + 0x100 * b2 + 0x1_0000 * b3, b2 + 0x100 * b3;
    DivUnique(v, 0x100, high3, b0);
    DivUnique(high3, 0x100, high2, b1);
    DivUnique(v, 0x1_0000, high2, b0 + 0x100 * b1);
    DivUnique(high2, 0x100, b3, b2);
    DivUnique(v, 0x100_0000, b3, b0 + 0x100 * b1 + 0x1_0000 * b2);
    DivUnique(b3, 0x100, 0, b3);
  }

  lemma KeyRoundTrip(fb: Frame)
    requires |fb| % 4 == 0
    ensures Full(KeyInts(fb), |fb|) == fb
  {
    hide Byte, Word;
    var ints := KeyInts(fb);
    forall i | 0 <= i < |fb| ensures Full(ints, |fb|)[i] == fb[i] {
      var q := i / 4;
      ByteOfWord(fb[4 * q], fb[4 * q + 1], fb[4 * q + 2], fb[4 * q + 3]);
    }
  }

  // ---------------------------------------------------------------- deltas

  predicate Fits(es: seq<int>) { forall i :: 0 <= i < |es| ==> 0 <= es[i] < ENTRY }

  /** Every packed integer is below 2^36 and unpacks to just its entries. */
  lemma UnpackPack(es: seq<int>, k: nat)
    requires Fits(es) && k < |es|
    ensures Entry(Pack(es), k) == es[k] && 0 <= Pack(es)[k / 2] < LIMIT
  {
  }

  function Stored(es: seq<int>, fb: Frame): Frame
    requires Fits(es)
  {
    if es == [] then fb else Store(Stored(es[..|es| - 1], fb), es[|es| - 1])
  }

  lemma {:induction false} AppliedIsStored(es: seq<int>, n: nat, fb: Frame)
    requires Fits(es) && n <= |es|
    ensures Applied(Pack(es), n, fb) == Stored(es[..n], fb)
    decreases n
  {
    hide Store, Pack, Entry;
    if n != 0 {
      AppliedIsStored(es, n - 1, fb);
      UnpackPack(es, n - 1);
      assert es[..n][..n - 1] == es[..n - 1];
    }
  }

  lemma StoreOne(prev: Frame, fb: Frame, k: nat)
    requires |prev| == |fb| && 0 < k <= |fb|
    ensures Store(fb[..k - 1] + prev[k - 1..], (k - 1) * 256 + fb[k - 1]) == fb[..k] + prev[k..]
  {
  }

  lemma SameOne(prev: Frame, fb: Frame, k: nat)
    requires |prev| == |fb| && 0 < k <= |fb| && fb[k - 1] == prev[k - 1]
    ensures fb[..k - 1] + prev[k - 1..] == fb[..k] + prev[k..]
  {
  }

  lemma StoredLast(es: seq<int>, e: int, fb: Frame)
    requires Fits(es) && 0 <= e < ENTRY
    ensures Fits(es + [e]) && Stored(es + [e], fb) == Store(Stored(es, fb), e)
  {
  }

  lemma {:induction false} ChangesApply(prev: Frame, fb: Frame, k: nat)
    requires |prev| == |fb| && k <= |fb| <= 1024
    ensures Fits(Entries(prev, fb, k)) && Stored(Entries(prev, fb, k), prev) == fb[..k] + prev[k..]
    decreases k
  {
    hide Store, Fits, Stored;
    EntriesFit(prev, fb, k);
    if k == 0 {
      assert fb[..0] + prev[0..] == prev;
      assert Stored([], prev) == prev by { StoredNone(prev); }
    } else {
      ChangesApply(prev, fb, k - 1);
      var es := Entries(prev, fb, k - 1);
      if fb[k - 1] == prev[k - 1] {
        assert es + [] == es;
        SameOne(prev, fb, k);
      } else {
        StoredLast(es, (k - 1) * 256 + fb[k - 1], prev);
        StoreOne(prev, fb, k);
      }
    }
  }

  lemma EntriesFit(prev: Frame, fb: Frame, k: nat)
    requires |prev| == |fb| && k <= |fb| <= 1024
    ensures Fits(Entries(prev, fb, k))
  {
    hide Entries;
  }

  lemma StoredNone(fb: Frame)
    ensures Fits([]) && Stored([], fb) == fb
  {
  }

  /** A delta over the previous frame gives this one. */
  lemma DeltaRoundTrip(prev: Frame, fb: Frame)
    requires |prev| == |fb| <= 1024
    ensures var es := Entries(prev, fb, |fb|); Applied(Pack(es), |es|, prev) == fb
  {
    var es := Entries(prev, fb, |fb|);
    ChangesApply(prev, fb, |fb|);
    AppliedIsStored(es, |es|, prev);
    assert es[..|es|] == es;
    assert fb[..|fb|] + prev[|fb|..] == fb;
  }

  // ---------------------------------------------------------------- slices

  lemma {:induction false} DataGrows(frames: seq<Frame>, keyint: nat, m: nat, n: nat)
    requires keyint > 0 && m <= n <= |frames| && (n > 0 ==> AllLength(frames, |frames[0]|))
    ensures Data(frames, keyint, m) <= Data(frames, keyint, n)
    decreases n
  {
    hide FrameInts, AllLength;
    if m < n { DataGrows(frames, keyint, m, n - 1); }
  }

  /** Each slice of the index is exactly that frame's integers. */
  lemma SliceIsFrame(frames: seq<Frame>, keyint: nat, i: nat)
    requires keyint > 0 && i < |frames| && AllLength(frames, |frames[0]|)
    ensures WellFormed(Encoded(frames, keyint))
    ensures Slice(Encoded(frames, keyint), i) == FrameInts(frames, keyint, i)
  {
    hide FrameInts, AllLength, FrameCount;
    var st := Encoded(frames, keyint);
    forall k | 0 <= k < st.nframes ensures StartOk(st, k) {
      DataGrows(frames, keyint, k, k + 1);
      DataGrows(frames, keyint, k + 1, |frames|);
    }
    var a, b := Data(frames, keyint, i), Data(frames, keyint, i + 1);
    DataGrows(frames, keyint, i + 1, |frames|);
    assert b == a + FrameInts(frames, keyint, i);
    assert st.data[|a|..|b|] == b[|a|..];
  }

  /** Whatever the panel showed before, playing from index 0 shows frame t mod nframes at every
      step t, across any number of loops. */
  lemma {:induction false} PlaybackIsExact(frames: seq<Frame>, keyint: nat, t: nat, panel: Frame)
    requires keyint > 0 && |frames| > 0 && AllLength(frames, |frames[0]|)
    requires ValidLength(|frames[0]|) && |panel| == |frames[0]|
    ensures WellFormed(Encoded(frames, keyint))
    ensures Play(Encoded(frames, keyint), t, panel) == frames[t % |frames|]
    decreases t
  {
    hide Data, Full, Applied, KeyInts, Pack, Entries;
    hide Encoded, Show;
    SliceIsFrame(frames, keyint, t % |frames|);
    if t != 0 { PlaybackIsExact(frames, keyint, t - 1, panel); }
    if t % |frames| != 0 { PreviousIndex(t, |frames|); }
    if t == 0 { ShowIsFrame(frames, keyint, t, panel); }
    else { ShowIsFrame(frames, keyint, t, frames[(t - 1) % |frames|]); }
  }

  /** One step: a keyframe over anything, a delta over the frame before it. */
  lemma ShowIsFrame(frames: seq<Frame>, keyint: nat, t: nat, panel: Frame)
    requires keyint > 0 && |frames| > 0 && AllLength(frames, |frames[0]|) && ValidLength(|frames[0]|)
    requires |panel| == |frames[0]| && (t % |frames| > 0 && t % |frames| % keyint != 0 ==> panel == frames[t % |frames| - 1])
    requires WellFormed(Encoded(frames, keyint))
    ensures Show(Encoded(frames, keyint), t, panel) == frames[t % |frames|]
  {
    hide Data, Full, Applied, KeyInts, Pack, Entries;
    var i := t % |frames|;
    SliceIsFrame(frames, keyint, i);
    ZeroMod(keyint);
    if IsKey(keyint, i) {
      KeyRoundTrip(frames[i]);
    } else {
      DeltaRoundTrip(frames[i - 1], frames[i]);
    }
  }

  /** The panel at step t, when it shows fb at an earlier one. */
  function Continued(st: Stream, from: nat, t: nat, fb: Frame): (r: Frame)
    requires WellFormed(st) && from <= t
    ensures |r| == |fb|
    decreases t
  {
    if t == from then fb else ShowLength(st, t, Continued(st, from, t - 1, fb)); Show(st, t, Continued(st, from, t - 1, fb))
  }

  lemma ShowLength(st: Stream, t: nat, fb: Frame)
    requires WellFormed(st)
    ensures |Show(st, t, fb)| == |fb|
  {
    var i := t % st.nframes;
    AppliedLength(Slice(st, i), st.ns[i], fb);
  }

  lemma {:induction false} AppliedLength(ints: seq<int>, n: nat, fb: Frame)
    ensures |Applied(ints, n, fb)| == |fb|
  {
    if n != 0 { AppliedLength(ints, n - 1, fb); }
  }

  /** Whatever a glitch puts on the panel, it is gone at the next keyframe, and stays gone. */
  lemma {:induction false} GlitchHeals(frames: seq<Frame>, keyint: nat, from: nat, key: nat, t: nat, fb: Frame)
    requires keyint > 0 && |frames| > 0 && AllLength(frames, |frames[0]|)
    requires ValidLength(|frames[0]|) && |fb| == |frames[0]|
    requires from < key <= t && key % |frames| % keyint == 0
    ensures WellFormed(Encoded(frames, keyint))
    ensures Continued(Encoded(frames, keyint), from, t, fb) == frames[t % |frames|]
    decreases t
  {
    hide Encoded, Show;
    SliceIsFrame(frames, keyint, t % |frames|);
    if t == key {
      ShowIsFrame(frames, keyint, t, Continued(Encoded(frames, keyint), from, t - 1, fb));
    } else {
      GlitchHeals(frames, keyint, from, key, t - 1, fb);
      if t % |frames| != 0 { PreviousIndex(t, |frames|); }
      ShowIsFrame(frames, keyint, t, frames[(t - 1) % |frames|]);
    }
  }

  lemma ZeroMod(n: nat)
    requires n > 0
    ensures 0 % n == 0
  {
    DivUnique(0, n, 0, 0);
  }

  lemma PreviousIndex(t: nat, n: nat)
    requires n > 0 && t % n != 0
    ensures t > 0 && (t - 1) % n == t % n - 1
  {
    DivMod(t, n);
    if t == 0 { DivUnique(0, n, 0, 0); }
    DivUnique(t - 1, n, t / n, t % n - 1);
  }

  /** Every integer of the stream is at least 0 and below 2^36. */
  lemma {:induction false} DataIsSmall(frames: seq<Frame>, keyint: nat, n: nat, i: nat)
    requires keyint > 0 && n <= |frames| && (n > 0 ==> AllLength(frames, |frames[0]|) && |frames[0]| <= 1024)
    requires i < |Data(frames, keyint, n)|
    ensures 0 <= Data(frames, keyint, n)[i] < LIMIT
    decreases n
  {
    hide KeyInts, Pack, Entries;
    var before := Data(frames, keyint, n - 1);
    if i < |before| {
      DataIsSmall(frames, keyint, n - 1, i);
    } else {
      FrameIsSmall(frames, keyint, n - 1, i - |before|);
    }
  }

  lemma FrameIsSmall(frames: seq<Frame>, keyint: nat, f: nat, i: nat)
    requires keyint > 0 && f < |frames| && AllLength(frames, |frames[0]|) && |frames[0]| <= 1024
    requires i < |FrameInts(frames, keyint, f)|
    ensures 0 <= FrameInts(frames, keyint, f)[i] < LIMIT
  {
    hide KeyInts, Pack, Entries;
    ZeroMod(keyint);
    if IsKey(keyint, f) {
      KeyIsSmall(frames[f], i);
    } else {
      EntriesFit(frames[f - 1], frames[f], |frames[f]|);
      UnpackPack(Changes(frames, f), 2 * i);
    }
  }

  lemma KeyIsSmall(fb: Frame, i: nat)
    requires i < |KeyInts(fb)|
    ensures 0 <= KeyInts(fb)[i] < 0x1_0000_0000
  {
  }

  // ---------------------------------------------------------------- the encoder's loops

  /** The header's fields after the magic. */
  datatype Header = Header(width: nat, height: nat, fps: nat, frames: nat)

  function FrameLength(h: Header): nat { h.width * (h.height / 8) }

  /** What emit_delta takes: anything else is refused. */
  predicate Accepts(h: Header) {
    && h.width != 0 && h.height != 0 && h.height % 8 == 0 && h.fps != 0 && h.frames != 0
    && FrameLength(h) % 4 == 0 && FrameLength(h) <= 1024
  }

  /** The bytes after the header as exactly n frames, or nothing. */
  function Split(input: seq<byte>, len: nat, n: nat): (r: Option<seq<Frame>>)
    ensures r.Some? ==> |r.value| == n && AllLength(r.value, len)
    decreases n
  {
    if n == 0 then (if input == [] then Some([]) else None)
    else if |input| < len then None
    else match Split(input[len..], len, n - 1)
      case None => None
      case Some(fs) => Some([input[..len]] + fs)
  }

  lemma {:induction false} SplitIff(input: seq<byte>, len: nat, n: nat)
    ensures Split(input, len, n).Some? <==> |input| == n * len
    decreases n
  {
    if n != 0 {
      assert n * len == (n - 1) * len + len;
      if |input| >= len { SplitIff(input[len..], len, n - 1); }
      else { NotNegative(n - 1, len); }
    }
  }

  lemma NotNegative(a: nat, b: nat)
    ensures a * b >= 0
  {
  }

  lemma KeyIntAt(fb: Frame, i: nat)
    requires i < |fb| / 4
    ensures KeyInts(fb)[i] == Word(fb[4 * i], fb[4 * i + 1], fb[4 * i + 2], fb[4 * i + 3])
  {
    hide Word;
  }

  method KeyFrame(fb: Frame) returns (ints: seq<int>)
    ensures ints == KeyInts(fb)
  {
    hide Word, KeyInts;
    KeyLength(fb);
    ints := [];
    var i := 0;
    while i < |fb| / 4
      invariant 0 <= i <= |fb| / 4
      invariant ints == KeyInts(fb)[..i]
    {
      KeyIntAt(fb, i);
      ints := ints + [Word(fb[4 * i], fb[4 * i + 1], fb[4 * i + 2], fb[4 * i + 3])];
      i := i + 1;
    }
  }

  /** Both passes of a delta frame: count the changes, then pack them with a pending high entry. */
  method DeltaFrame(prev: Frame, fb: Frame) returns (count: nat, ints: seq<int>)
    requires |prev| == |fb|
    ensures count == |Entries(prev, fb, |fb|)| && ints == Pack(Entries(prev, fb, |fb|))
  {
    count := CountChanges(prev, fb);
    ints := PackChanges(prev, fb);
  }

  method CountChanges(prev: Frame, fb: Frame) returns (count: nat)
    requires |prev| == |fb|
    ensures count == |Entries(prev, fb, |fb|)|
  {
    count := 0;
    var i := 0;
    while i < |fb|
      invariant 0 <= i <= |fb| && count == |Entries(prev, fb, i)|
    {
      if fb[i] != prev[i] { count := count + 1; }
      i := i + 1;
    }
  }

  method PackChanges(prev: Frame, fb: Frame) returns (ints: seq<int>)
    requires |prev| == |fb|
    ensures ints == Pack(Entries(prev, fb, |fb|))
  {
    hide Pack, Entries, Packing;
    ints := [];
    var pending, high := false, 0;
    var i := 0;
    PackNone(prev, fb);
    while i < |fb|
      invariant 0 <= i <= |fb|
      invariant Packing(Entries(prev, fb, i), ints, pending, high)
    {
      EntriesStep(prev, fb, i);
      if fb[i] != prev[i] {
        var e := i * 256 + fb[i];
        PackStep(Entries(prev, fb, i), e, ints, pending, high);
        if !pending {
          high, pending := e, true;
        } else {
          ints := ints + [high * ENTRY + e];
          pending := false;
        }
      }
      i := i + 1;
    }
    PackEnd(Entries(prev, fb, i), ints, pending, high);
    if pending { ints := ints + [high * ENTRY]; }
  }

  lemma EntriesStep(prev: Frame, fb: Frame, i: nat)
    requires |prev| == |fb| && i < |fb|
    ensures Entries(prev, fb, i + 1) ==
            if fb[i] == prev[i] then Entries(prev, fb, i) else Entries(prev, fb, i) + [i * 256 + fb[i]]
  {
    assert Entries(prev, fb, i) + [] == Entries(prev, fb, i);
  }

  /** The integers written so far, and the entry that waits for its partner. */
  ghost predicate Packing(es: seq<int>, ints: seq<int>, pending: bool, high: int) {
    if pending then |es| % 2 == 1 && ints == Pack(es[..|es| - 1]) && high == es[|es| - 1]
    else |es| % 2 == 0 && ints == Pack(es)
  }

  lemma PackNone(prev: Frame, fb: Frame)
    requires |prev| == |fb|
    ensures Packing(Entries(prev, fb, 0), [], false, 0)
  {
  }

  lemma PackStep(es: seq<int>, e: int, ints: seq<int>, pending: bool, high: int)
    requires Packing(es, ints, pending, high)
    ensures if pending then Packing(es + [e], ints + [high * ENTRY + e], false, high)
            else Packing(es + [e], ints, true, e)
  {
  }

  lemma PackEnd(es: seq<int>, ints: seq<int>, pending: bool, high: int)
    requires Packing(es, ints, pending, high)
    ensures Pack(es) == if pending then ints + [high * ENTRY] else ints
  {
  }

  function Prepended(seen: seq<Frame>, r: Option<seq<Frame>>): Option<seq<Frame>> {
    match r case None => None case Some(fs) => Some(seen + fs)
  }

  lemma PrependOne(seen: seq<Frame>, rest: seq<byte>, len: nat, n: nat)
    requires n > 0 && len <= |rest|
    ensures Prepended(seen, Split(rest, len, n)) == Prepended(seen + [rest[..len]], Split(rest[len..], len, n - 1))
  {
    var r := Split(rest[len..], len, n - 1);
    if r.Some? { assert seen + ([rest[..len]] + r.value) == seen + [rest[..len]] + r.value; }
  }

  /** What the frames so far have put into the stream, the last start still missing. */
  ghost predicate Emitted(seen: seq<Frame>, keyint: nat, data: seq<int>, starts: seq<nat>, ns: seq<nat>)
    requires keyint > 0 && (|seen| > 0 ==> AllLength(seen, |seen[0]|))
  {
    && data == Data(seen, keyint, |seen|) && |starts| == |ns| == |seen|
    && forall f :: 0 <= f < |seen| ==> starts[f] == |Data(seen, keyint, f)| && ns[f] == FrameCount(seen, keyint, f)
  }

  lemma EmptyEmitted(keyint: nat)
    requires keyint > 0
    ensures Emitted([], keyint, [], [], [])
  {
  }

  lemma {:induction false} DataOfPrefix(seen: seq<Frame>, fb: Frame, len: nat, keyint: nat, n: nat)
    requires keyint > 0 && AllLength(seen, len) && |fb| == len && n <= |seen|
    ensures AllLength(seen + [fb], len) && Data(seen + [fb], keyint, n) == Data(seen, keyint, n)
    ensures forall f :: 0 <= f < n ==> FrameCount(seen + [fb], keyint, f) == FrameCount(seen, keyint, f)
    decreases n
  {
    hide KeyInts, Pack, Entries;
    if n > 0 {
      DataOfPrefix(seen, fb, len, keyint, n - 1);
      var after := seen + [fb];
      assert after[n - 1] == seen[n - 1] && (n > 1 ==> after[n - 2] == seen[n - 2]);
      ZeroMod(keyint);
    }
  }

  lemma EmitOne(seen: seq<Frame>, fb: Frame, len: nat, keyint: nat, data: seq<int>, starts: seq<nat>, ns: seq<nat>,
                ints: seq<int>, count: nat)
    requires keyint > 0 && AllLength(seen, len) && |fb| == len && Emitted(seen, keyint, data, starts, ns)
    requires AllLength(seen + [fb], len)
    requires ints == FrameInts(seen + [fb], keyint, |seen|) && count == FrameCount(seen + [fb], keyint, |seen|)
    ensures Emitted(seen + [fb], keyint, data + ints, starts + [|data|], ns + [count])
  {
    hide FrameInts, FrameCount;
    var after := seen + [fb];
    DataOfPrefix(seen, fb, len, keyint, |seen|);
    forall f | 0 <= f < |seen| ensures |Data(after, keyint, f)| == |Data(seen, keyint, f)| {
      DataOfPrefix(seen, fb, len, keyint, f);
    }
  }

  lemma EmittedAll(seen: seq<Frame>, keyint: nat, data: seq<int>, starts: seq<nat>, ns: seq<nat>)
    requires keyint > 0 && |seen| > 0 && AllLength(seen, |seen[0]|) && Emitted(seen, keyint, data, starts, ns)
    ensures Encoded(seen, keyint) == Stream(data, starts + [|data|], ns, |seen|, keyint)
  {
    hide FrameInts, FrameCount, Data;
    var st := Encoded(seen, keyint);
    assert st.starts == starts + [|data|];
    assert st.ns == ns;
  }

  /** One frame: its integers, its number of entries, and how far the cursor moves. */
  method EmitFrame(ghost seen: seq<Frame>, prev: Frame, fb: Frame, f: nat, keyint: nat)
    returns (ints: seq<int>, count: nat, words: nat)
    requires keyint > 0 && f == |seen| && AllLength(seen, |fb|) && (f > 0 ==> prev == seen[f - 1])
    ensures AllLength(seen + [fb], |fb|)
    ensures ints == FrameInts(seen + [fb], keyint, f) && count == FrameCount(seen + [fb], keyint, f)
    ensures words == |ints|
  {
    hide KeyInts, Pack, Entries;
    ghost var after := seen + [fb];
    assert AllLength(after, |fb|);
    ZeroMod(keyint);
    if f % keyint == 0 {
      ints := KeyFrame(fb);
      count, words := 0, |fb| / 4;
      KeyLength(fb);
    } else {
      assert after[f - 1] == prev;
      count, ints := DeltaFrame(prev, fb);
      words := (count + 1) / 2;
    }
  }

  lemma KeyLength(fb: Frame)
    ensures |KeyInts(fb)| == |fb| / 4
  {
  }

  /** emit_delta: refuse a bad header, a short frame and trailing bytes; else emit the stream. */
  method Emit(h: Header, keyint: nat, input: seq<byte>) returns (r: Option<Stream>)
    requires keyint > 0
    ensures r.Some? <==> Accepts(h) && |input| == h.frames * FrameLength(h)
    ensures r.Some? ==>
              var frames := Split(input, FrameLength(h), h.frames);
              frames.Some? && AllLength(frames.value, FrameLength(h)) && r.value == Encoded(frames.value, keyint)
    ensures r.Some? ==> PlaysBack(r.value, input, FrameLength(h), h.frames)
  {
    hide FrameInts, FrameCount, Data, FrameLength, Emitted, Split, AllLength, Encoded;
    var len := FrameLength(h);
    SplitIff(input, len, h.frames);
    if !Accepts(h) { return None; }
    var rest, prev: Frame := input, [];
    var data, starts, ns, f, cursor := [], [], [], 0, 0;
    ghost var seen: seq<Frame> := [];
    EmptyEmitted(keyint);
    LengthsOf(seen, len);
    PrependNone(Split(rest, len, h.frames));
    while f < h.frames
      invariant 0 <= f <= h.frames && |seen| == f && (f > 0 ==> prev == seen[f - 1])
      invariant AllLength(seen, len) && (f > 0 ==> |seen[0]| == len)
      invariant Split(input, len, h.frames) == Prepended(seen, Split(rest, len, h.frames - f))
      invariant Emitted(seen, keyint, data, starts, ns) && cursor == |data|
    {
      if |rest| < len {
        ShortIsNone(rest, len, h.frames - f);
        return None;
      }
      var fb := rest[..len];
      PrependOne(seen, rest, len, h.frames - f);
      var ints, count, words := EmitFrame(seen, prev, fb, f, keyint);
      EmitOne(seen, fb, len, keyint, data, starts, ns, ints, count);
      starts := starts + [cursor];
      data, ns, cursor := data + ints, ns + [count], cursor + words;
      seen := seen + [fb];
      prev := fb;
      rest := rest[len..];
      f := f + 1;
    }
    EndOfInput(seen, rest, len);
    if rest != [] { return None; }
    EmittedAll(seen, keyint, data, starts, ns);
    starts := starts + [cursor];
    r := Some(Stream(data, starts, ns, h.frames, keyint));
    EmittedPlaysBack(h, keyint, input);
  }

  /** Whatever the panel showed before, step t of playing a stream shows bytes t mod n * len onwards
      of the input. */
  ghost predicate PlaysBack(st: Stream, input: seq<byte>, len: nat, n: nat) {
    && n > 0 && WellFormed(st) && |input| == n * len
    && forall t: nat, panel: Frame {:trigger Play(st, t, panel)} :: |panel| == len ==>
         Play(st, t, panel) == FrameAt(input, len, t % n)
  }

  function FrameAt(input: seq<byte>, len: nat, k: nat): Frame {
    if k * len + len <= |input| then input[k * len..k * len + len] else []
  }

  lemma EmittedPlaysBack(h: Header, keyint: nat, input: seq<byte>)
    requires keyint > 0 && Accepts(h) && |input| == h.frames * FrameLength(h)
    ensures var frames := Split(input, FrameLength(h), h.frames);
            frames.Some? && PlaysBack(Encoded(frames.value, keyint), input, FrameLength(h), h.frames)
  {
    hide Data, Play, Encoded, Split, WellFormed, FrameAt;
    var len, n := FrameLength(h), h.frames;
    SplitIff(input, len, n);
    var frames := Split(input, len, n).value;
    AcceptedLength(h);
    assert |frames[0]| == len;
    var none: Frame := Zeroed(len);
    PlaybackIsExact(frames, keyint, 0, none);
    forall t: nat, panel: Frame | |panel| == len
      ensures Play(Encoded(frames, keyint), t, panel) == FrameAt(input, len, t % n)
    {
      PlaybackIsExact(frames, keyint, t, panel);
      SplitIs(input, len, n, t % n);
    }
  }

  function Zeroed(len: nat): Frame { seq(len, _ => 0) }

  lemma AcceptedLength(h: Header)
    requires Accepts(h)
    ensures ValidLength(FrameLength(h))
  {
    var rows := h.height / 8;
    assert rows >= 1;
    MulAtLeast(h.width, rows);
  }

  /** Frame k of the input is its k-th piece. */
  lemma {:induction false} SplitIs(input: seq<byte>, len: nat, n: nat, k: nat)
    requires k < n && Split(input, len, n).Some?
    ensures Split(input, len, n).value[k] == FrameAt(input, len, k)
    decreases n
  {
    SplitIff(input, len, n);
    PieceInside(len, n, k);
    if k == 0 {
      assert input[0..len] == input[..len];
    } else {
      LaterPiece(input, len, n, k);
      SplitIff(input[len..], len, n - 1);
      SplitIs(input[len..], len, n - 1, k - 1);
    }
  }

  /** A later piece is one of what follows the first. */
  lemma LaterPiece(input: seq<byte>, len: nat, n: nat, k: nat)
    requires 0 < k < n && |input| == n * len
    ensures len <= |input| && |input[len..]| == (n - 1) * len && k * len == (k - 1) * len + len
    ensures 0 <= (k - 1) * len && k * len + len <= |input|
    ensures input[len..][(k - 1) * len..k * len] == input[k * len..k * len + len]
  {
    PieceInside(len, n, 0);
    PieceInside(len, n, k);
    PieceInside(len, n - 1, k - 1);
    var a := (k - 1) * len;
    assert k * len == a + len;
    Shifted(input, len, a);
  }

  lemma Shifted(input: seq<byte>, len: nat, a: nat)
    requires len + a + len <= |input|
    ensures input[len..][a..a + len] == input[a + len..a + len + len]
  {
  }

  lemma PieceInside(len: nat, n: nat, k: nat)
    requires k < n
    ensures 0 <= k * len && k * len + len <= n * len
  {
    NotNegative(n - k - 1, len);
    NotNegative(k, len);
    assert n * len == k * len + len + (n - k - 1) * len;
  }

  /** The panel the stream is for, whose frame is exactly the largest there may be. */
  lemma PanelIsAccepted(fps: nat, frames: nat)
    requires fps > 0 && frames > 0
    ensures Accepts(Header(128, 64, fps, frames)) && FrameLength(Header(128, 64, fps, frames)) == 1024
    ensures !Accepts(Header(128, 72, fps, frames)) && !Accepts(Header(0, 64, fps, frames)) && !Accepts(Header(128, 60, fps, frames))
    ensures !Accepts(Header(2, 8, fps, frames))
  {
  }

  /** The format in numbers: four bytes an integer, the first lowest; an entry is its offset times 256
      and its byte; two entries an integer, the first times 2^18. */
  lemma FormatIs(a: byte, b: byte, c: byte, d: byte, e: int, f: int)
    ensures KeyInts([a, b, c, d]) == [a + 256 * b as int + 65536 * c as int + 16777216 * d as int]
    ensures Pack([e, f]) == [262144 * e + f] && Pack([e]) == [262144 * e]
    ensures a != b ==> Entries([0, a], [0, b], 2) == [256 + b as int]
  {
    if a != b {
      assert Entries([0, a], [0, b], 1) == [];
    }
  }

  lemma LengthsOf(seen: seq<Frame>, len: nat)
    requires seen == []
    ensures AllLength(seen, len)
  {
  }

  lemma PrependNone(r: Option<seq<Frame>>)
    ensures Prepended([], r) == r
  {
    if r.Some? { assert [] + r.value == r.value; }
  }

  lemma ShortIsNone(rest: seq<byte>, len: nat, n: nat)
    requires n > 0 && |rest| < len
    ensures Split(rest, len, n) == None
  {
  }

  lemma EndOfInput(seen: seq<Frame>, rest: seq<byte>, len: nat)
    ensures Prepended(seen, Split(rest, len, 0)) == if rest == [] then Some(seen) else None
  {
    assert seen + [] == seen;
  }
}
