/** Who owns each decoder frame: the frame loop of coda-cube as a protocol among the decoder,
    the main thread, the worker thread and the compositor, one atomic action at a time. */
module ZeroCopy {
  import opened Wrappers

  const MAX_HELD := 32

  type Frame = nat   // a decoder frame buffer, by its physical address

  function AsSet(o: Option<Frame>): multiset<Frame> {
    if o.Some? then multiset{o.value} else multiset{}
  }

  /** Where the main thread is: at the top of the loop, inside decode_aus, after it, before and
      after handing the next frame to the worker, at the end of the loop body, and after the
      loop. */
  datatype Pc = LoopTop | Decode | Judge | Submit | Show | LoopEnd | ExitWait | ExitFlush | Done

  datatype Mode = Mode(pipeline: bool, zeroCopy: bool)

  /** `rel` is released first, then a picture is decoded into `fi`. */
  datatype Worker = Worker(busy: bool, ok: bool, fi: Option<Frame>, rel: seq<Frame>)

  /** `dec` are the frames the decoder may write; `busy` are the buffers marked as held by the
      compositor, of which it reads `held`, has announced `events` as released, and never
      answers for `lost` (its display is gone). `known` are the buffers exported so far, the table
      of at most 32 that zc_get keeps. */
  datatype State = State(
    pc: Pc, ok: bool, fi: Option<Frame>,
    rel: seq<Frame>, busy: set<Frame>,
    held: set<Frame>, events: seq<Frame>, lost: set<Frame>,
    dec: set<Frame>, w: Worker, known: set<Frame>, fault: bool)

  /** Frames are given to the decoder with vd_release. It is a fault to give one back twice, or
      while the compositor holds it. */
  function Release(s: State, f: Frame): State {
    s.(dec := s.dec + {f}, fault := s.fault || f in s.dec || f in s.busy)
  }

  /** rel_push: a full queue drops the frame, which is a fault. */
  function RelPush(s: State, f: Frame): State {
    if |s.rel| == MAX_HELD then s.(fault := true) else s.(rel := s.rel + [f])
  }

  // ---------------------------------------------------------------- actions

  datatype Action =
    | Stop                      // the loop condition or a break at its end
    | Flush                     // rel_flush, one frame
    | StartDecode               // not pipelined: the queue is empty, decode
    | Wait                      // pipelined: the worker is done, take its picture
    | Get(f: Frame)             // decode_aus: a picture arrives
    | Stale(f: Frame)           // a newer one behind it: keep the newest
    | Between                   // a picture of an earlier access unit
    | Finish                    // decode_aus returns what it has
    | Accept | Refuse           // zc_get or the mapping succeeds, or fails
    | Drop | GiveUp             // no picture: go on, or stop after eight in a row
    | HandOver                  // worker_submit
    | Present(gone: bool)       // the buffer goes to the compositor
    | Dispatch                  // one wl_buffer.release, delivered to zc_released
    | Again                     // next iteration
    | CompositorRelease(f: Frame)
    | WorkerRelease | WorkerGet(f: Frame) | WorkerStale(f: Frame) | WorkerBetween | WorkerFinish
    | ExitWorker                // after the loop: wait, release the worker's last picture
    | Leave                     // the queue is flushed

  predicate Enabled(m: Mode, s: State, a: Action) {
    match a
    case Stop => s.pc == LoopTop || s.pc == LoopEnd
    case Flush => (s.pc == ExitFlush || (s.pc == LoopTop && !m.pipeline)) && |s.rel| > 0
    case StartDecode => s.pc == LoopTop && !m.pipeline && |s.rel| == 0
    case Wait => s.pc == LoopTop && m.pipeline && !s.w.busy
    case Get(f) => s.pc == Decode && s.fi.None? && f in s.dec
    case Stale(f) => s.pc == Decode && s.fi.Some? && f in s.dec
    case Between => s.pc == Decode && s.fi.Some?
    case Finish => s.pc == Decode
    case Accept =>
      && s.pc == Judge && s.ok && s.fi.Some?
      && (m.zeroCopy ==> s.fi.value !in s.busy && (s.fi.value in s.known || |s.known| < MAX_HELD))
    case Refuse => s.pc == Judge && s.ok && s.fi.Some?
    case Drop => s.pc == Judge && !s.ok
    case GiveUp => s.pc == Judge && !s.ok
    case HandOver => s.pc == Submit
    case Present(_) => s.pc == Show
    case Dispatch => (s.pc == Show || s.pc == LoopEnd) && |s.events| > 0
    case Again => s.pc == LoopEnd
    case CompositorRelease(f) => f in s.held
    case WorkerRelease => s.w.busy && |s.w.rel| > 0
    case WorkerGet(f) => s.w.busy && |s.w.rel| == 0 && s.w.fi.None? && f in s.dec
    case WorkerStale(f) => s.w.busy && |s.w.rel| == 0 && s.w.fi.Some? && f in s.dec
    case WorkerBetween => s.w.busy && |s.w.rel| == 0 && s.w.fi.Some?
    case WorkerFinish => s.w.busy && |s.w.rel| == 0
    case ExitWorker => s.pc == ExitWait && !s.w.busy
    case Leave => s.pc == ExitFlush && |s.rel| == 0
  }

  /** worker_submit: the queue is the worker's from here on. */
  function SubmitTo(s: State): State {
    s.(rel := [], w := Worker(true, s.w.ok, None, s.rel))
  }

  /** zc_released: warn about a buffer that was not held, else queue its frame. */
  function ZcReleased(s: State, f: Frame): State {
    if f !in s.busy then s.(fault := true) else RelPush(s.(busy := s.busy - {f}), f)
  }

  /** The main thread moves on; only its locals change. */
  function Move(s: State, pc: Pc, ok: bool, fi: Option<Frame>): State {
    s.(pc := pc, ok := ok, fi := fi)
  }

  /** The main thread gives its frame back to the decoder. */
  function GiveBack(s: State, pc: Pc): State
    requires s.fi.Some?
  {
    Release(s.(pc := pc, fi := None), s.fi.value)
  }

  /** zc_get: the frame's buffer is in the table, or is exported now. */
  function Admit(s: State): State
    requires s.fi.Some?
  {
    s.(pc := Submit, known := s.known + {s.fi.value})
  }

  function FlushOne(s: State): State
    requires |s.rel| > 0
  {
    Release(s.(rel := s.rel[1..]), s.rel[0])
  }

  function Take(s: State, f: Frame): State {
    s.(fi := Some(f), dec := s.dec - {f})
  }

  function Newer(s: State, f: Frame): State
    requires s.fi.Some?
  {
    Release(s.(fi := Some(f), dec := s.dec - {f}), s.fi.value)
  }

  function PushAndSubmit(s: State): State
    requires s.fi.Some?
  {
    SubmitTo(RelPush(s.(pc := Show, fi := None), s.fi.value))
  }

  /** busy is set before the buffer is handed to the compositor. */
  function GiveToCompositor(s: State, gone: bool): State
    requires s.fi.Some?
  {
    var f := s.fi.value;
    s.(pc := LoopEnd, fi := None, busy := s.busy + {f},
       held := if gone then s.held else s.held + {f}, lost := if gone then s.lost + {f} else s.lost)
  }

  function Deliver(s: State): State
    requires |s.events| > 0
  {
    ZcReleased(s.(events := s.events[1..]), s.events[0])
  }

  function Announce(s: State, f: Frame): State {
    s.(held := s.held - {f}, events := s.events + [f])
  }

  function WorkerFlushOne(s: State): State
    requires |s.w.rel| > 0
  {
    Release(s.(w := s.w.(rel := s.w.rel[1..])), s.w.rel[0])
  }

  function WorkerTake(s: State, f: Frame): State {
    s.(w := s.w.(fi := Some(f)), dec := s.dec - {f})
  }

  function WorkerNewer(s: State, f: Frame): State
    requires s.w.fi.Some?
  {
    Release(s.(w := s.w.(fi := Some(f)), dec := s.dec - {f}), s.w.fi.value)
  }

  function WorkerGiveBack(s: State): State
    requires s.w.fi.Some?
  {
    Release(s.(w := s.w.(fi := None)), s.w.fi.value)
  }

  function WorkerDone(s: State): State {
    s.(w := s.w.(busy := false, ok := s.w.fi.Some?))
  }

  /** After the loop the worker's last picture, which nobody took, is released. */
  function ReleaseLast(s: State): State
    requires s.w.fi.Some?
  {
    Release(s.(pc := ExitFlush, w := s.w.(fi := None, ok := false)), s.w.fi.value)
  }

  function Next(m: Mode, s: State, a: Action): State
    requires Enabled(m, s, a)
  {
    match a
    case Stop => Move(s, ExitWait, s.ok, s.fi)
    case Flush => FlushOne(s)
    case StartDecode => Move(s, Decode, s.ok, None)
    case Wait => Move(s, Judge, s.w.ok, s.w.fi)
    case Get(f) => Take(s, f)
    case Stale(f) => Newer(s, f)
    case Between => GiveBack(s, Decode)
    case Finish => Move(s, Judge, s.fi.Some?, s.fi)
    case Accept =>
      if m.zeroCopy then Admit(s)
      else if m.pipeline then Move(s, Submit, s.ok, s.fi)
      else GiveBack(s, Submit)                      // mapped, converted, done with
    case Refuse =>
      if m.pipeline then Move(s, ExitWait, s.ok, s.fi)   // released with the worker's picture
      else GiveBack(s, ExitWait)
    case Drop => Move(s, Submit, s.ok, s.fi)
    case GiveUp => Move(s, ExitWait, s.ok, s.fi)
    case HandOver =>
      if !m.pipeline then Move(s, Show, s.ok, s.fi)
      else if s.ok && !m.zeroCopy && s.fi.Some? then PushAndSubmit(s)
      else SubmitTo(s.(pc := Show))
    case Present(gone) =>
      if m.zeroCopy && s.ok && s.fi.Some? then GiveToCompositor(s, gone)
      else Move(s, LoopEnd, s.ok, s.fi)
    case Dispatch => Deliver(s)
    case Again => Move(s, LoopTop, s.ok, s.fi)
    case CompositorRelease(f) => Announce(s, f)
    case WorkerRelease => WorkerFlushOne(s)
    case WorkerGet(f) => WorkerTake(s, f)
    case WorkerStale(f) => WorkerNewer(s, f)
    case WorkerBetween => WorkerGiveBack(s)
    case WorkerFinish => WorkerDone(s)
    case ExitWorker =>
      if m.pipeline && s.w.ok && s.w.fi.Some? then ReleaseLast(s) else Move(s, ExitFlush, s.ok, s.fi)
    case Leave => Move(s, Done, s.ok, s.fi)
  }

  function Init(m: Mode, pool: set<Frame>): State {
    State(LoopTop, false, None, [], {}, {}, [], {}, pool, Worker(m.pipeline, false, None, []), {}, false)
  }

  /** A run: every enabled action, in any order. */
  ghost predicate Run(m: Mode, s: State, steps: seq<Action>, t: State)
    decreases steps
  {
    if |steps| == 0 then s == t
    else Enabled(m, s, steps[0]) && Run(m, Next(m, s, steps[0]), steps[1..], t)
  }

  // ---------------------------------------------------------------- ownership

  /** The frame the main thread must dispose of. Pipelined, the worker answers for the picture
      until the next one is submitted. */
  function MainOwns(m: Mode, pc: Pc, ok: bool, fi: Option<Frame>): Option<Frame> {
    if m.pipeline then (if m.zeroCopy && ok && pc == Show then fi else None)
    else if pc.Decode? || pc.Judge? || pc.Submit? || pc.Show? then fi else None
  }

  function WorkerOwns(w: Worker): Option<Frame> {
    if w.busy || w.ok then w.fi else None
  }

  function Owners(m: Mode, s: State): multiset<Frame> {
    multiset(s.dec) + multiset(s.rel) + multiset(s.busy) + multiset(s.w.rel)
    + AsSet(MainOwns(m, s.pc, s.ok, s.fi)) + AsSet(WorkerOwns(s.w))
  }

  /** The control state: what the program counter says about the hands. */
  predicate Control(m: Mode, s: State) {
    && (!m.pipeline ==> !s.w.busy && s.w.fi == None && s.w.rel == [])
    && (m.pipeline ==> s.pc != Decode)
    && (!s.w.busy ==> s.w.rel == [] && (s.w.ok <==> s.w.fi.Some?))
    && (m.pipeline && (s.pc.Judge? || s.pc.Submit?) ==> !s.w.busy && s.ok == s.w.ok && s.fi == s.w.fi)
    && (!m.pipeline && (s.pc.Judge? || s.pc.Submit? || s.pc.Show?) ==> (s.fi.Some? ==> s.ok))
    && (!m.pipeline && s.pc.Judge? ==> (s.ok ==> s.fi.Some?))
    && (m.zeroCopy && m.pipeline && s.pc == Show && s.ok ==> s.fi.Some?)
    && (!m.pipeline && !m.zeroCopy && (s.pc.Submit? || s.pc.Show?) ==> s.fi == None)
    && ((s.pc.ExitFlush? || s.pc.Done?) ==> !s.w.busy && !s.w.ok && s.w.rel == [])
    && (s.pc == Done ==> s.rel == [])
  }

  /** What the table of exported buffers says about the queue and the compositor. */
  predicate Tabled(m: Mode, s: State) {
    && |s.known| <= MAX_HELD
    && s.busy <= s.known && (forall f :: f in s.rel ==> f in s.known)
    && (m.zeroCopy && (s.pc.Submit? || s.pc.Show?) && s.ok && s.fi.Some? ==> s.fi.value in s.known)
    && (!m.zeroCopy ==> s.rel == [] && s.known == {})
  }

  /** Every frame of the pool has exactly one owner, the compositor's marks agree with it, and
      nothing has gone wrong. */
  predicate Inv(m: Mode, pool: set<Frame>, s: State) {
    && !s.fault
    && Control(m, s)
    && Tabled(m, s)
    && Owners(m, s) == multiset(pool)
    && multiset(s.held) + multiset(s.events) + multiset(s.lost) == multiset(s.busy)
  }

  // ---------------------------------------------------------------- moving one frame

  lemma HeadMoves(q: seq<Frame>)
    requires |q| > 0
    ensures multiset(q) == multiset{q[0]} + multiset(q[1..])
  {
    assert q == [q[0]] + q[1..];
  }

  lemma TailMoves(q: seq<Frame>, f: Frame)
    ensures multiset(q + [f]) == multiset(q) + multiset{f}
  {
  }

  lemma SetLoses(x: set<Frame>, f: Frame)
    requires f in x
    ensures multiset(x) == multiset(x - {f}) + multiset{f}
  {
  }

  lemma SetGains(x: set<Frame>, f: Frame)
    requires f !in x
    ensures multiset(x + {f}) == multiset(x) + multiset{f}
  {
  }

  /** One of six owners holds `f`, so no other does, and no part outgrows the pool. */
  lemma Exclusive(pool: set<Frame>, part: multiset<Frame>, rest: multiset<Frame>, f: Frame)
    requires multiset(pool) == part + rest && f in part
    ensures rest[f] == 0 && part[f] == 1
  {
    assert multiset(pool)[f] <= 1;
    assert (part + rest)[f] == part[f] + rest[f];
  }

  // ---------------------------------------------------------------- every action keeps the invariant

  lemma StepControl(m: Mode, pool: set<Frame>, s: State, a: Action)
    requires Inv(m, pool, s) && Enabled(m, s, a)
    ensures Control(m, Next(m, s, a))
  {
    if OfWorker(a) { WorkerControl(m, pool, s, a); } else { MainControl(m, pool, s, a); }
  }

  /** The worker's actions, and the compositor's. */
  predicate OfWorker(a: Action) {
    a.CompositorRelease? || a.WorkerRelease? || a.WorkerGet? || a.WorkerStale? || a.WorkerBetween? || a.WorkerFinish?
  }

  lemma WorkerControl(m: Mode, pool: set<Frame>, s: State, a: Action)
    requires Inv(m, pool, s) && Enabled(m, s, a) && OfWorker(a)
    ensures Control(m, Next(m, s, a))
  {
    hide Owners, Tabled;
  }

  lemma MainControl(m: Mode, pool: set<Frame>, s: State, a: Action)
    requires Inv(m, pool, s) && Enabled(m, s, a) && !OfWorker(a)
    ensures Control(m, Next(m, s, a))
  {
    hide Owners, Tabled;
  }

  lemma StepTabled(m: Mode, pool: set<Frame>, s: State, a: Action)
    requires Inv(m, pool, s) && Enabled(m, s, a)
    ensures Tabled(m, Next(m, s, a))
  {
    match a {
      case Accept => TabledAccept(m, pool, s);
      case Dispatch => TabledDeliver(m, pool, s);
      case HandOver => TabledHandOver(m, pool, s);
      case Present(gone) => TabledPresent(m, pool, s, gone);
      case _ => TabledElse(m, pool, s, a);
    }
  }

  lemma TabledAccept(m: Mode, pool: set<Frame>, s: State)
    requires Inv(m, pool, s) && Enabled(m, s, Accept)
    ensures Tabled(m, Next(m, s, Accept))
  {
    hide Owners, Control;
  }

  lemma TabledDeliver(m: Mode, pool: set<Frame>, s: State)
    requires Inv(m, pool, s) && Enabled(m, s, Dispatch)
    ensures Tabled(m, Next(m, s, Dispatch))
  {
    hide Owners, Control;
  }

  lemma TabledHandOver(m: Mode, pool: set<Frame>, s: State)
    requires Inv(m, pool, s) && Enabled(m, s, HandOver)
    ensures Tabled(m, Next(m, s, HandOver))
  {
    hide Owners, Control;
  }

  lemma TabledPresent(m: Mode, pool: set<Frame>, s: State, gone: bool)
    requires Inv(m, pool, s) && Enabled(m, s, Present(gone))
    ensures Tabled(m, Next(m, s, Present(gone)))
  {
    hide Owners, Control;
  }

  lemma TabledElse(m: Mode, pool: set<Frame>, s: State, a: Action)
    requires Inv(m, pool, s) && Enabled(m, s, a)
    requires !a.Accept? && !a.Dispatch? && !a.HandOver? && !a.Present?
    ensures Tabled(m, Next(m, s, a))
  {
    hide Owners, Control;
  }

  /** The owners other than the decoder, the queue and the compositor. */
  function Hands(m: Mode, s: State): multiset<Frame> {
    multiset(s.w.rel) + AsSet(MainOwns(m, s.pc, s.ok, s.fi)) + AsSet(WorkerOwns(s.w))
  }

  lemma OwnersAre(m: Mode, s: State)
    ensures Owners(m, s) == multiset(s.dec) + multiset(s.rel) + multiset(s.busy) + Hands(m, s)
  {
  }

  /** A frame leaves the hands or the queue for the decoder. */
  lemma GivenBack(m: Mode, pool: set<Frame>, s: State, t: State, f: Frame)
    requires Owners(m, s) == multiset(pool)
    requires t.dec == s.dec + {f} && t.busy == s.busy
    requires multiset(s.rel) + Hands(m, s) == multiset(t.rel) + Hands(m, t) + multiset{f}
    ensures f !in s.dec && f !in s.busy && Owners(m, t) == multiset(pool)
  {
    hide Hands, Owners;
    OwnersAre(m, s);
    OwnersAre(m, t);
    var outside := multiset(s.dec) + multiset(s.busy);
    var inside := multiset(s.rel) + Hands(m, s);
    assert multiset(pool) == inside + outside;
    Exclusive(pool, inside, outside, f);
    SetGains(s.dec, f);
  }

  /** A newer picture replaces the one in hand, which goes back. */
  lemma Replaced(m: Mode, pool: set<Frame>, s: State, t: State, f: Frame, old_: Frame)
    requires Owners(m, s) == multiset(pool) && f in s.dec
    requires t.dec == s.dec - {f} + {old_} && t.busy == s.busy && t.rel == s.rel
    requires Hands(m, t) + multiset{old_} == Hands(m, s) + multiset{f}
    requires old_ in Hands(m, s)
    ensures old_ !in s.dec && old_ !in s.busy && Owners(m, t) == multiset(pool)
  {
    hide Hands, Owners;
    OwnersAre(m, s);
    OwnersAre(m, t);
    InHands(m, pool, s, old_);
    SetLoses(s.dec, f);
    SetGains(s.dec - {f}, old_);
    var d, r := multiset(s.dec - {f}), multiset(s.rel) + multiset(s.busy);
    assert t.dec == (s.dec - {f}) + {old_};
    assert Owners(m, s) == d + multiset{f} + r + Hands(m, s);
    assert Owners(m, t) == d + multiset{old_} + r + Hands(m, t);
    Swap(d, r, Hands(m, s), Hands(m, t), multiset{f}, multiset{old_});
  }

  lemma InHands(m: Mode, pool: set<Frame>, s: State, f: Frame)
    requires Owners(m, s) == multiset(pool) && f in Hands(m, s)
    ensures f !in s.dec && f !in s.busy
  {
    hide Hands, Owners;
    OwnersAre(m, s);
    var outside := multiset(s.dec) + multiset(s.rel) + multiset(s.busy);
    assert multiset(pool) == Hands(m, s) + outside;
    Exclusive(pool, Hands(m, s), outside, f);
    assert outside[f] == multiset(s.dec)[f] + multiset(s.rel)[f] + multiset(s.busy)[f];
  }

  lemma Swap(d: multiset<Frame>, r: multiset<Frame>, h: multiset<Frame>, h': multiset<Frame>, a: multiset<Frame>, b: multiset<Frame>)
    requires h' + b == h + a
    ensures d + b + r + h' == d + a + r + h
  {
    assert d + b + r + h' == d + r + (h' + b);
    assert d + a + r + h == d + r + (h + a);
  }

  lemma NoPush(m: Mode, s: State, t: State)
    requires t.dec == s.dec && t.busy == s.busy && multiset(t.rel) + Hands(m, t) == multiset(s.rel) + Hands(m, s)
    ensures Owners(m, t) == Owners(m, s)
  {
    hide Hands;
    OwnersAre(m, s);
    OwnersAre(m, t);
    var b := multiset(s.dec) + multiset(s.busy);
    assert Owners(m, s) == b + (multiset(s.rel) + Hands(m, s));
    assert Owners(m, t) == b + (multiset(t.rel) + Hands(m, t));
  }

  // The actions, one by one; `Owners` and the compositor's marks.

  ghost predicate Keeps(m: Mode, pool: set<Frame>, t: State) {
    && !t.fault && Owners(m, t) == multiset(pool)
    && multiset(t.held) + multiset(t.events) + multiset(t.lost) == multiset(t.busy)
  }

  lemma KeepMove(m: Mode, pool: set<Frame>, s: State, pc: Pc, ok: bool, fi: Option<Frame>)
    requires Inv(m, pool, s) && MainOwns(m, pc, ok, fi) == MainOwns(m, s.pc, s.ok, s.fi)
    ensures Keeps(m, pool, Move(s, pc, ok, fi))
  {
  }

  lemma KeepAdmit(m: Mode, pool: set<Frame>, s: State)
    requires Inv(m, pool, s) && s.pc == Judge && s.fi.Some?
    ensures Keeps(m, pool, Admit(s))
  {
  }

  lemma KeepGiveBack(m: Mode, pool: set<Frame>, s: State, pc: Pc)
    requires Inv(m, pool, s) && MainOwns(m, s.pc, s.ok, s.fi) == s.fi && s.fi.Some?
    ensures Keeps(m, pool, GiveBack(s, pc))
  {
    hide Owners, Control;
    GivenBack(m, pool, s, GiveBack(s, pc), s.fi.value);
  }

  lemma KeepFlushOne(m: Mode, pool: set<Frame>, s: State)
    requires Inv(m, pool, s) && |s.rel| > 0
    ensures Keeps(m, pool, FlushOne(s))
  {
    hide Owners, Control, MainOwns;
    HeadMoves(s.rel);
    GivenBack(m, pool, s, FlushOne(s), s.rel[0]);
  }

  lemma KeepTake(m: Mode, pool: set<Frame>, s: State, f: Frame)
    requires Inv(m, pool, s) && !m.pipeline && s.pc == Decode && s.fi.None? && f in s.dec
    ensures Keeps(m, pool, Take(s, f))
  {
  }

  lemma KeepNewer(m: Mode, pool: set<Frame>, s: State, f: Frame)
    requires Inv(m, pool, s) && !m.pipeline && s.pc == Decode && s.fi.Some? && f in s.dec
    ensures Keeps(m, pool, Newer(s, f))
  {
    hide Owners, Control;
    Replaced(m, pool, s, Newer(s, f), f, s.fi.value);
  }

  lemma KeepWorkerFlushOne(m: Mode, pool: set<Frame>, s: State)
    requires Inv(m, pool, s) && |s.w.rel| > 0
    ensures Keeps(m, pool, WorkerFlushOne(s))
  {
    hide Owners, Control, MainOwns;
    HeadMoves(s.w.rel);
    GivenBack(m, pool, s, WorkerFlushOne(s), s.w.rel[0]);
  }

  lemma KeepWorkerTake(m: Mode, pool: set<Frame>, s: State, f: Frame)
    requires Inv(m, pool, s) && s.w.busy && s.w.fi.None? && f in s.dec
    ensures Keeps(m, pool, WorkerTake(s, f))
  {
  }

  lemma KeepWorkerNewer(m: Mode, pool: set<Frame>, s: State, f: Frame)
    requires Inv(m, pool, s) && s.w.busy && s.w.fi.Some? && f in s.dec
    ensures Keeps(m, pool, WorkerNewer(s, f))
  {
    hide Owners, Control, MainOwns;
    Replaced(m, pool, s, WorkerNewer(s, f), f, s.w.fi.value);
  }

  lemma KeepWorkerGiveBack(m: Mode, pool: set<Frame>, s: State)
    requires Inv(m, pool, s) && s.w.busy && s.w.fi.Some?
    ensures Keeps(m, pool, WorkerGiveBack(s))
  {
    hide Owners, Control, MainOwns;
    GivenBack(m, pool, s, WorkerGiveBack(s), s.w.fi.value);
  }

  lemma KeepWorkerDone(m: Mode, pool: set<Frame>, s: State)
    requires Inv(m, pool, s) && s.w.busy
    ensures Keeps(m, pool, WorkerDone(s))
  {
  }

  lemma KeepReleaseLast(m: Mode, pool: set<Frame>, s: State)
    requires Inv(m, pool, s) && !s.w.busy && s.w.ok && s.w.fi.Some?
    requires MainOwns(m, ExitFlush, s.ok, s.fi) == MainOwns(m, s.pc, s.ok, s.fi)
    ensures Keeps(m, pool, ReleaseLast(s))
  {
    hide Owners, Control, MainOwns;
    GivenBack(m, pool, s, ReleaseLast(s), s.w.fi.value);
  }

  /** No frame is queued and marked at once, and all are in the table, so the queue has room. */
  lemma QueueRoom(m: Mode, pool: set<Frame>, s: State)
    requires Owners(m, s) == multiset(pool) && Tabled(m, s)
    ensures |s.rel| + |s.busy| <= MAX_HELD
  {
    hide Hands, Owners;
    OwnersAre(m, s);
    var both := multiset(s.rel) + multiset(s.busy);
    forall f ensures both[f] <= multiset(s.known)[f] {
      assert multiset(pool)[f] <= 1;
      assert multiset(pool)[f] == both[f] + (multiset(s.dec) + Hands(m, s))[f];
    }
    SmallerMultiset(both, multiset(s.known));
    assert |multiset(s.known)| == |s.known| && |multiset(s.busy)| == |s.busy| && |multiset(s.rel)| == |s.rel|;
  }

  lemma SmallerMultiset(a: multiset<Frame>, b: multiset<Frame>)
    requires forall f :: a[f] <= b[f]
    ensures |a| <= |b|
  {
    assert b == a + (b - a);
  }

  /** worker_submit: the queue changes hands, and so does the picture just taken. */
  lemma KeepSubmit(m: Mode, pool: set<Frame>, s: State)
    requires Inv(m, pool, s) && m.pipeline && s.pc == Submit && !(s.ok && !m.zeroCopy)
    ensures Keeps(m, pool, SubmitTo(s.(pc := Show)))
  {
  }

  /** The converted frame joins the queue, and the queue goes to the worker. */
  lemma KeepPushAndSubmit(m: Mode, pool: set<Frame>, s: State)
    requires Inv(m, pool, s) && m.pipeline && s.pc == Submit && s.ok && !m.zeroCopy
    ensures s.fi.Some? && Keeps(m, pool, PushAndSubmit(s))
  {
    hide Owners;
    TailMoves(s.rel, s.fi.value);
    NoPush(m, s, PushAndSubmit(s));
  }

  lemma NotMarked(s: State, f: Frame)
    requires multiset(s.held) + multiset(s.events) + multiset(s.lost) == multiset(s.busy) && f !in s.busy
    ensures f !in s.held && f !in s.lost
  {
    assert (multiset(s.held) + multiset(s.events) + multiset(s.lost))[f] == 0;
  }

  lemma Cancel(a: multiset<Frame>, b: multiset<Frame>, x: multiset<Frame>)
    requires a + x == b + x
    ensures a == b
  {
    assert a == (a + x) - x && b == (b + x) - x;
  }

  /** A frame in the main thread's hand is nowhere else, in particular not marked busy. */
  lemma InHandOnly(m: Mode, pool: set<Frame>, s: State)
    requires Owners(m, s) == multiset(pool)
    requires s.fi.Some? && MainOwns(m, s.pc, s.ok, s.fi) == s.fi
    ensures s.fi.value !in s.busy
  {
    var f := s.fi.value;
    var outside := multiset(s.dec) + multiset(s.rel) + multiset(s.busy) + multiset(s.w.rel) + AsSet(WorkerOwns(s.w));
    assert multiset(pool) == multiset{f} + outside;
    Exclusive(pool, multiset{f}, outside, f);
    assert outside[f] >= multiset(s.busy)[f];
  }

  lemma MarksGrow(s: State, f: Frame, gone: bool)
    requires multiset(s.held) + multiset(s.events) + multiset(s.lost) == multiset(s.busy) && f !in s.busy
    ensures multiset(if gone then s.held else s.held + {f}) + multiset(s.events)
            + multiset(if gone then s.lost + {f} else s.lost) == multiset(s.busy + {f})
  {
    NotMarked(s, f);
    SetGains(s.busy, f);
    if gone { SetGains(s.lost, f); } else { SetGains(s.held, f); }
  }

  lemma KeepGiveToCompositor(m: Mode, pool: set<Frame>, s: State, gone: bool)
    requires Inv(m, pool, s) && m.zeroCopy && s.pc == Show && s.ok && s.fi.Some?
    ensures Keeps(m, pool, GiveToCompositor(s, gone))
  {
    hide Control, Owners, Tabled, Hands;
    var t, f := GiveToCompositor(s, gone), s.fi.value;
    InHandOnly(m, pool, s);
    MarksGrow(s, f, gone);
    HandsGive(m, s, gone);
    MovedToCompositor(m, s, t, f);
  }

  lemma HandsGive(m: Mode, s: State, gone: bool)
    requires m.zeroCopy && s.pc == Show && s.ok && s.fi.Some?
    ensures Hands(m, s) == Hands(m, GiveToCompositor(s, gone)) + multiset{s.fi.value}
  {
  }

  lemma MovedToCompositor(m: Mode, s: State, t: State, f: Frame)
    requires f !in s.busy && t.busy == s.busy + {f} && t.dec == s.dec && t.rel == s.rel
    requires Hands(m, s) == Hands(m, t) + multiset{f}
    ensures Owners(m, t) == Owners(m, s)
  {
    hide Hands, Owners;
    SetGains(s.busy, f);
    OwnersAre(m, s);
    OwnersAre(m, t);
    var rest := multiset(s.dec) + multiset(s.rel) + multiset(s.busy) + Hands(m, t);
    assert Owners(m, s) == rest + multiset{f};
    assert Owners(m, t) == rest + multiset{f};
  }

  /** The first announced release is of a marked buffer, and the other marks stay right. */
  lemma MarksShrink(s: State)
    requires multiset(s.held) + multiset(s.events) + multiset(s.lost) == multiset(s.busy) && |s.events| > 0
    ensures s.events[0] in s.busy
    ensures multiset(s.held) + multiset(s.events[1..]) + multiset(s.lost) == multiset(s.busy - {s.events[0]})
  {
    var f := s.events[0];
    HeadMoves(s.events);
    assert (multiset(s.held) + multiset(s.events) + multiset(s.lost))[f] > 0;
    SetLoses(s.busy, f);
    var a := multiset(s.held) + multiset(s.events[1..]) + multiset(s.lost);
    assert a + multiset{f} == multiset(s.busy - {f}) + multiset{f};
    Cancel(a, multiset(s.busy - {f}), multiset{f});
  }

  lemma KeepDeliver(m: Mode, pool: set<Frame>, s: State)
    requires Inv(m, pool, s) && |s.events| > 0
    ensures Keeps(m, pool, Deliver(s))
  {
    hide Control, Hands, Owners;
    var f := s.events[0];
    MarksShrink(s);
    QueueRoom(m, pool, s);
    var t := s.(rel := s.rel + [f], busy := s.busy - {f}, events := s.events[1..]);
    assert |s.busy| > 0;
    assert Deliver(s) == t;
    MovedToQueue(m, s, t, f);
  }

  lemma MovedToQueue(m: Mode, s: State, t: State, f: Frame)
    requires f in s.busy && t == s.(rel := s.rel + [f], busy := s.busy - {f}, events := t.events)
    ensures Owners(m, t) == Owners(m, s)
  {
  }

  lemma KeepAnnounce(m: Mode, pool: set<Frame>, s: State, f: Frame)
    requires Inv(m, pool, s) && f in s.held
    ensures Keeps(m, pool, Announce(s, f))
  {
  }

  /** Every action of every participant keeps the invariant. */
  lemma StepInv(m: Mode, pool: set<Frame>, s: State, a: Action)
    requires Inv(m, pool, s) && Enabled(m, s, a)
    ensures Inv(m, pool, Next(m, s, a))
  {
    StepControl(m, pool, s, a);
    StepTabled(m, pool, s, a);
    StepKeeps(m, pool, s, a);
  }

  lemma StepKeeps(m: Mode, pool: set<Frame>, s: State, a: Action)
    requires Inv(m, pool, s) && Enabled(m, s, a)
    ensures Keeps(m, pool, Next(m, s, a))
  {
    hide Owners, Keeps, Move, GiveBack, FlushOne, Take, Newer, PushAndSubmit, SubmitTo, GiveToCompositor, Deliver, Admit, Tabled,
         Announce, WorkerFlushOne, WorkerTake, WorkerNewer, WorkerGiveBack, WorkerDone, ReleaseLast;
    match a {
      case Stop => KeepMove(m, pool, s, ExitWait, s.ok, s.fi);
      case Flush => KeepFlushOne(m, pool, s);
      case StartDecode => KeepMove(m, pool, s, Decode, s.ok, None);
      case Wait => KeepMove(m, pool, s, Judge, s.w.ok, s.w.fi);
      case Get(f) => KeepTake(m, pool, s, f);
      case Stale(f) => KeepNewer(m, pool, s, f);
      case Between => KeepGiveBack(m, pool, s, Decode);
      case Finish => KeepMove(m, pool, s, Judge, s.fi.Some?, s.fi);
      case Accept =>
        if m.zeroCopy { KeepAdmit(m, pool, s); }
        else if m.pipeline { KeepMove(m, pool, s, Submit, s.ok, s.fi); }
        else { KeepGiveBack(m, pool, s, Submit); }
      case Refuse =>
        if m.pipeline { KeepMove(m, pool, s, ExitWait, s.ok, s.fi); } else { KeepGiveBack(m, pool, s, ExitWait); }
      case Drop => KeepMove(m, pool, s, Submit, s.ok, s.fi);
      case GiveUp => KeepMove(m, pool, s, ExitWait, s.ok, s.fi);
      case HandOver =>
        if !m.pipeline { KeepMove(m, pool, s, Show, s.ok, s.fi); }
        else if s.ok && !m.zeroCopy { KeepPushAndSubmit(m, pool, s); }
        else { KeepSubmit(m, pool, s); }
      case Present(gone) =>
        if m.zeroCopy && s.ok && s.fi.Some? { KeepGiveToCompositor(m, pool, s, gone); }
        else { KeepMove(m, pool, s, LoopEnd, s.ok, s.fi); }
      case Dispatch => KeepDeliver(m, pool, s);
      case Again => KeepMove(m, pool, s, LoopTop, s.ok, s.fi);
      case CompositorRelease(f) => KeepAnnounce(m, pool, s, f);
      case WorkerRelease => KeepWorkerFlushOne(m, pool, s);
      case WorkerGet(f) => KeepWorkerTake(m, pool, s, f);
      case WorkerStale(f) => KeepWorkerNewer(m, pool, s, f);
      case WorkerBetween => KeepWorkerGiveBack(m, pool, s);
      case WorkerFinish => KeepWorkerDone(m, pool, s);
      case ExitWorker =>
        if m.pipeline && s.w.ok && s.w.fi.Some? { KeepReleaseLast(m, pool, s); }
        else { KeepMove(m, pool, s, ExitFlush, s.ok, s.fi); }
      case Leave => KeepMove(m, pool, s, Done, s.ok, s.fi);
    }
  }

  lemma {:induction false} RunInv(m: Mode, pool: set<Frame>, s: State, steps: seq<Action>, t: State)
    requires Inv(m, pool, s) && Run(m, s, steps, t)
    ensures Inv(m, pool, t)
    decreases steps
  {
    hide Inv, Enabled, Next;
    if |steps| != 0 {
      StepInv(m, pool, s, steps[0]);
      RunInv(m, pool, Next(m, s, steps[0]), steps[1..], t);
    }
  }

  lemma InitInv(m: Mode, pool: set<Frame>)
    ensures Inv(m, pool, Init(m, pool))
  {
  }

  // ---------------------------------------------------------------- what it means

  /** In every run, pipelined or not, copying or not, with a decoder of any number of frame
      buffers: no frame is given back twice or while the compositor holds it, no release is
      lost to a full queue, no announced release finds its buffer unmarked, and each frame has
      exactly one owner. Once the loop has left by any path, every frame is back with the
      decoder or still with the compositor. */
  lemma FramesHaveOneOwner(m: Mode, pool: set<Frame>, steps: seq<Action>, t: State)
    requires Run(m, Init(m, pool), steps, t)
    ensures !t.fault && |t.rel| <= 32
    ensures forall f :: f in pool ==> Owners(m, t)[f] == 1
    ensures t.dec !! t.busy && t.held <= t.busy
    ensures t.pc == Done ==> t.dec + t.busy == pool
  {
    hide Run, Init, Owners;
    InitInv(m, pool);
    RunInv(m, pool, Init(m, pool), steps, t);
    QueueRoom(m, pool, t);
    Apart(m, pool, t);
    if t.pc == Done { NothingLeaks(m, pool, t); }
  }

  lemma Apart(m: Mode, pool: set<Frame>, t: State)
    requires Inv(m, pool, t)
    ensures t.dec !! t.busy && t.held <= t.busy
  {
    hide Control;
    forall f | f in t.dec && f in t.busy ensures false {
      var rest := multiset(t.rel) + multiset(t.w.rel) + AsSet(MainOwns(m, t.pc, t.ok, t.fi)) + AsSet(WorkerOwns(t.w));
      assert multiset(pool) == multiset(t.dec) + (multiset(t.busy) + rest);
      Exclusive(pool, multiset(t.dec), multiset(t.busy) + rest, f);
    }
    forall f | f in t.held ensures f in t.busy {
      assert (multiset(t.held) + multiset(t.events) + multiset(t.lost))[f] > 0;
    }
  }

  lemma NothingLeaks(m: Mode, pool: set<Frame>, t: State)
    requires Inv(m, pool, t) && t.pc == Done
    ensures t.dec + t.busy == pool
  {
    hide Tabled;
    assert Owners(m, t) == multiset(t.dec) + multiset(t.busy);
    SameElements(t.dec, t.busy, pool);
  }

  lemma SameElements(a: set<Frame>, b: set<Frame>, c: set<Frame>)
    requires multiset(a) + multiset(b) == multiset(c)
    ensures a + b == c
  {
    forall f ensures f in a + b <==> f in c {
      assert multiset(c)[f] == multiset(a)[f] + multiset(b)[f];
    }
  }
}
