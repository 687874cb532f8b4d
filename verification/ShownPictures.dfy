/** Which picture coda-cube shows: the newest its decode has delivered. What the decoder handed out is
    read off the actions alone, and compared with the frames the threads hold. */
module ShownPictures {
  import opened Wrappers
  import opened ZeroCopy

  /** What a decode has been given: its latest picture, and every one so far. */
  datatype Given = Given(latest: Option<Frame>, all: set<Frame>)

  /** The main thread's decode, the worker's, and the latest picture of the one that is shown next. */
  datatype Pictures = Pictures(main: Given, worker: Given, shown: Option<Frame>)

  const Nothing := Given(None, {})

  function Follow(m: Mode, h: Pictures, a: Action): Pictures {
    match a
    case StartDecode => h.(main := Nothing)
    case Get(f) => h.(main := Given(Some(f), h.main.all + {f}))
    case Stale(f) => h.(main := Given(Some(f), h.main.all + {f}))
    case Between => h.(main := h.main.(latest := None))
    case Finish => h.(shown := h.main.latest)
    case Wait => h.(shown := h.worker.latest)
    case HandOver => if m.pipeline then h.(worker := Nothing) else h
    case WorkerGet(f) => h.(worker := Given(Some(f), h.worker.all + {f}))
    case WorkerStale(f) => h.(worker := Given(Some(f), h.worker.all + {f}))
    case WorkerBetween => h.(worker := h.worker.(latest := None))
    case ExitWorker => h.(worker := Nothing)
    case _ => h
  }

  function FollowAll(m: Mode, steps: seq<Action>): Pictures {
    if steps == [] then Pictures(Nothing, Nothing, None)
    else Follow(m, FollowAll(m, steps[..|steps| - 1]), steps[|steps| - 1])
  }

  /** A decode's hand holds its latest picture, and the decoder has every other one back. */
  predicate Holds(dec: set<Frame>, hand: Option<Frame>, g: Given) {
    hand == g.latest && forall f :: f in g.all ==> f in dec || hand == Some(f)
  }

  predicate Agree(m: Mode, s: State, h: Pictures) {
    && (s.pc == Decode ==> Holds(s.dec, s.fi, h.main))
    && (m.pipeline ==> Holds(s.dec, s.w.fi, h.worker))
    && (s.pc == Judge ==> s.fi == h.shown)
    && (m.zeroCopy && (s.pc == Submit || s.pc == Show) ==> s.fi == h.shown)
  }

  lemma AgreeStep(m: Mode, pool: set<Frame>, s: State, h: Pictures, a: Action)
    requires Inv(m, pool, s) && Enabled(m, s, a) && Agree(m, s, h)
    ensures Agree(m, Next(m, s, a), Follow(m, h, a))
  {
    hide Owners, Tabled;
    if OfWorker(a) { WorkerAgrees(m, pool, s, h, a); }
    else if a.Get? || a.Stale? || a.Between? || a.StartDecode? || a.Finish? { DecodeAgrees(m, pool, s, h, a); }
    else { OthersAgree(m, pool, s, h, a); }
  }

  lemma WorkerAgrees(m: Mode, pool: set<Frame>, s: State, h: Pictures, a: Action)
    requires Inv(m, pool, s) && Enabled(m, s, a) && Agree(m, s, h) && OfWorker(a)
    ensures Agree(m, Next(m, s, a), Follow(m, h, a))
  {
    hide Owners, Tabled;
  }

  lemma DecodeAgrees(m: Mode, pool: set<Frame>, s: State, h: Pictures, a: Action)
    requires Inv(m, pool, s) && Enabled(m, s, a) && Agree(m, s, h)
    requires a.Get? || a.Stale? || a.Between? || a.StartDecode? || a.Finish?
    ensures Agree(m, Next(m, s, a), Follow(m, h, a))
  {
    hide Owners, Tabled;
  }

  lemma OthersAgree(m: Mode, pool: set<Frame>, s: State, h: Pictures, a: Action)
    requires Inv(m, pool, s) && Enabled(m, s, a) && Agree(m, s, h) && !OfWorker(a)
    requires !a.Get? && !a.Stale? && !a.Between? && !a.StartDecode? && !a.Finish?
    ensures Agree(m, Next(m, s, a), Follow(m, h, a))
  {
    hide Owners, Tabled;
  }

  /** A run and its last action. */
  lemma {:induction false} RunLast(m: Mode, s: State, steps: seq<Action>, t: State) returns (u: State)
    requires steps != [] && Run(m, s, steps, t)
    ensures var n := |steps| - 1; Run(m, s, steps[..n], u) && Enabled(m, u, steps[n]) && Next(m, u, steps[n]) == t
    decreases |steps|
  {
    hide Enabled, Next;
    var n := |steps| - 1;
    if n == 0 {
      u := s;
    } else {
      u := RunLast(m, Next(m, s, steps[0]), steps[1..], t);
      assert steps[1..][..n - 1] == steps[..n][1..];
    }
  }

  lemma {:induction false} RunAgrees(m: Mode, pool: set<Frame>, steps: seq<Action>, t: State)
    requires Run(m, Init(m, pool), steps, t)
    ensures Inv(m, pool, t) && Agree(m, t, FollowAll(m, steps))
    decreases |steps|
  {
    hide Inv, Agree, Enabled, Next, Follow;
    if steps == [] {
      InitInv(m, pool);
      InitAgrees(m, pool);
    } else {
      var u := RunLast(m, Init(m, pool), steps, t);
      RunAgrees(m, pool, steps[..|steps| - 1], u);
      AgreeStep(m, pool, u, FollowAll(m, steps[..|steps| - 1]), steps[|steps| - 1]);
      StepInv(m, pool, u, steps[|steps| - 1]);
    }
  }

  lemma InitAgrees(m: Mode, pool: set<Frame>)
    ensures Agree(m, Init(m, pool), Pictures(Nothing, Nothing, None))
  {
  }

  /** Whenever a decode returns, in any run, it holds the last picture the decoder gave it, and the
      decoder has every earlier one back. */
  lemma NewestIsKept(m: Mode, pool: set<Frame>, steps: seq<Action>, t: State)
    requires Run(m, Init(m, pool), steps, t)
    ensures var h := FollowAll(m, steps);
            && (Enabled(m, t, Finish) ==> Holds(t.dec, t.fi, h.main))
            && (m.pipeline && Enabled(m, t, WorkerFinish) ==> Holds(t.dec, t.w.fi, h.worker))
  {
    hide Run, Inv, Holds;
    RunAgrees(m, pool, steps, t);
  }

  /** And that picture is the one accepted, and with zero-copy the one whose buffer the compositor is
      given. */
  lemma NewestIsShown(m: Mode, pool: set<Frame>, steps: seq<Action>, t: State, gone: bool)
    requires Run(m, Init(m, pool), steps, t)
    ensures var h := FollowAll(m, steps);
            && (Enabled(m, t, Accept) ==> t.fi == h.shown && h.shown.Some?)
            && (m.zeroCopy && Enabled(m, t, Present(gone)) && t.ok && h.shown.Some? ==>
                  Next(m, t, Present(gone)).busy == t.busy + {h.shown.value})
            && (m.zeroCopy && Enabled(m, t, Present(gone)) && Next(m, t, Present(gone)).busy != t.busy ==>
                  t.ok && h.shown.Some?)
  {
    hide Run, Inv, Holds;
    RunAgrees(m, pool, steps, t);
  }

  /** Two pictures in one decode: the second is kept and the first goes back. */
  lemma SecondPictureWins(pool: set<Frame>, f: Frame, g: Frame)
    requires f in pool && g in pool && f != g
    ensures var m := Mode(false, true);
            var s1 := Next(m, Init(m, pool), StartDecode);
            var s2 := Next(m, s1, Get(f));
            var s3 := Next(m, s2, Stale(g));
            s3.fi == Some(g) && f in s3.dec && g !in s3.dec
  {
  }
}
