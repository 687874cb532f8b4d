/** When soph_drm's no-frame-start fallback stays away: a display whose frame starts come often enough
    for its poller. */
module FlipPacing {
  import opened Wrappers
  import opened PageFlip
  import opened FlipRuns

  /** Ticks since the last frame start. */
  function Since(since: nat, a: Step): nat {
    if a.FrameStart? then 0 else if a.Tick? then since + 1 else since
  }

  /** A serial run on a display that works: the poller runs only while vblanks do, at most
      `bound` times between two frame starts; every flip asks for its event; the display is not disabled. */
  ghost predicate Paced(c: Config, bound: nat, s: State, since: nat, steps: seq<Step>, t: State)
    decreases steps
  {
    if |steps| == 0 then s == t
    else
      var a := steps[0];
      && Enabled(c, true, s, a) && !a.Disable?
      && (a.Tick? ==> s.vblanks && since < bound)
      && (a.Arm? ==> a.event)
      && Paced(c, bound, Next(c, s, a), Since(since, a), steps[1..], t)
  }

  /** No frame start was lost since the poller last saw one. */
  predicate AllSeen(s: State, since: nat) { s.miss <= if s.status then OVERSAMPLE else since }

  /** At most one was: a commit cleared it, and its event is not out yet. */
  predicate OneLost(s: State, since: nat) {
    && s.miss <= OVERSAMPLE + (if s.status then OVERSAMPLE else since)
    && (s.commit.Unlocked? || s.armed != [])
  }

  predicate Polled(s: State, since: nat) {
    && since <= OVERSAMPLE
    && (s.vblanks ==> AllSeen(s, since) || OneLost(s, since))
    && (!s.vblanks ==> s.miss == 0 && s.armed == [])
    && (!s.commit.Idle? ==> s.armed == []) && (s.commit.Modeset? ==> !s.vblanks)
  }

  /** None of the deliveries from the n-th on was the fallback's. */
  predicate NoFallback(log: seq<Delivery>, n: nat) { forall i :: n <= i < |log| ==> !log[i].kind.Fallback? }

  lemma PacedStep(c: Config, s: State, since: nat, a: Step, n: nat)
    requires Polled(s, since) && Enabled(c, true, s, a) && !a.Disable?
    requires (a.Tick? ==> s.vblanks && since < OVERSAMPLE) && (a.Arm? ==> a.event)
    ensures Polled(Next(c, s, a), Since(since, a))
    ensures NoFallback(s.log, n) ==> NoFallback(Next(c, s, a).log, n)
  {
    if a.Tick? { PacedTick(s, since, a.div, n); } else { PacedOther(c, s, since, a, n); }
  }

  lemma PacedTick(s: State, since: nat, div: nat, n: nat)
    requires Polled(s, since) && s.vblanks && since < OVERSAMPLE && (s.commit.Idle? || s.commit.Unlocked?)
    ensures Polled(Poll(s, div), since + 1)
    ensures NoFallback(s.log, n) ==> NoFallback(Poll(s, div).log, n)
  {
  }

  lemma PacedOther(c: Config, s: State, since: nat, a: Step, n: nat)
    requires Polled(s, since) && Enabled(c, true, s, a) && !a.Disable? && !a.Tick? && (a.Arm? ==> a.event)
    ensures Polled(Next(c, s, a), Since(since, a))
    ensures NoFallback(s.log, n) ==> NoFallback(Next(c, s, a).log, n)
  {
    hide Deliveries, Poll, Apply, Writes, Recalled, Completes, SetGeometry, SetAddresses, SetLayer, Remember;
  }

  lemma {:induction false} PacedRun(c: Config, bound: nat, s: State, since: nat, steps: seq<Step>, t: State, n: nat)
    requires bound <= OVERSAMPLE && Polled(s, since) && NoFallback(s.log, n) && Paced(c, bound, s, since, steps, t)
    ensures NoFallback(t.log, n) && Run(c, true, s, steps, t)
    decreases steps
  {
    hide Polled, NoFallback, Enabled, Next;
    if |steps| != 0 {
      PacedStep(c, s, since, steps[0], n);
      PacedRun(c, bound, Next(c, s, steps[0]), Since(since, steps[0]), steps[1..], t, n);
    }
  }

  /** On a display that works, from any moment of any history at which nothing is pending and the
      poller has missed nothing, so from probe or once it has seen a frame start, until the display
      is disabled, no flip is completed by the fallback: every event goes out with vblanks off, or
      with its flip in the working bank. */
  lemma WorkingDisplayAlwaysLatches(c: Config, bound: nat, s0: State, history: seq<Step>, s: State, since: nat, steps: seq<Step>, t: State, i: nat)
    requires Init(s0) && Run(c, true, s0, history, s) && s.miss == 0 && s.commit.Idle? && s.armed == []
    requires bound <= OVERSAMPLE && since <= OVERSAMPLE && Paced(c, bound, s, since, steps, t) && |s.log| <= i < |t.log|
    ensures var d := t.log[i];
            && (d.kind.Real? || d.kind.VblankOff?)
            && (d.kind.Real? ==> 0 < d.flip <= |t.requests| && d.live == d.flip && Shows(c, d.bank, t.requests[d.flip - 1]))
  {
    hide Paced, Run, CacheAgrees, BanksShow, StatusIsFresh, ArmedOk, Shows;
    PacedRun(c, bound, s, since, steps, t, |s.log|);
    InitInv(c, true, s0);
    RunInv(c, true, s0, history, s);
    RunInv(c, true, s, steps, t);
  }

  // ---------------------------------------------------------------- five ticks are too many

  lemma PacedNone(c: Config, bound: nat, s: State, since: nat)
    ensures Paced(c, bound, s, since, [], s)
  {
  }

  lemma PacedCons(c: Config, bound: nat, s: State, since: nat, a: Step, steps: seq<Step>, t: State)
    requires Enabled(c, true, s, a) && !a.Disable? && (a.Tick? ==> s.vblanks && since < bound) && (a.Arm? ==> a.event)
    requires Paced(c, bound, Next(c, s, a), Since(since, a), steps, t)
    ensures Paced(c, bound, s, since, [a] + steps, t)
  {
    hide Enabled, Next;
    assert ([a] + steps)[1..] == steps;
  }

  /** Steps other than ticks, frame starts and disables, with an event on every flip. */
  predicate Untimed(steps: seq<Step>) {
    forall i :: 0 <= i < |steps| ==>
      !steps[i].Tick? && !steps[i].FrameStart? && !steps[i].Disable? && (steps[i].Arm? ==> steps[i].event)
  }

  lemma {:induction false} PacedUntimed(c: Config, bound: nat, s: State, since: nat, xs: seq<Step>, m: State, ys: seq<Step>, t: State)
    requires Run(c, true, s, xs, m) && Untimed(xs) && Paced(c, bound, m, since, ys, t)
    ensures Paced(c, bound, s, since, xs + ys, t)
    decreases xs
  {
    hide Enabled, Next;
    if |xs| == 0 {
      assert xs + ys == ys;
    } else {
      PacedUntimed(c, bound, Next(c, s, xs[0]), since, xs[1..], m, ys, t);
      PacedCons(c, bound, s, since, xs[0], xs[1..] + ys, t);
      assert xs + ys == [xs[0]] + (xs[1..] + ys);
    }
  }

  lemma {:induction false} PacedTicks(c: Config, bound: nat, s: State, since: nat, n: nat, steps: seq<Step>, t: State)
    requires s.commit.Idle? && s.vblanks && !s.status && s.miss + n <= 2 * OVERSAMPLE && since + n <= bound
    requires Paced(c, bound, s.(miss := s.miss + n), since + n, steps, t)
    ensures Paced(c, bound, s, since, Ticks(n) + steps, t)
    decreases n
  {
    if n == 0 {
      assert Ticks(0) + steps == steps;
    } else {
      hide Paced, Ticks, Next;
      TicksMore(n);
      OneTick(c, s);
      PacedTicks(c, bound, s.(miss := s.miss + 1), since + 1, n - 1, steps, t);
      PacedCons(c, bound, s, since, Tick(1), Ticks(n - 1) + steps, t);
      assert Ticks(n) + steps == [Tick(1)] + (Ticks(n - 1) + steps);
    }
  }

  lemma OneTick(c: Config, s: State)
    requires !s.status && s.miss < 2 * OVERSAMPLE
    ensures Next(c, s, Tick(1)) == s.(miss := s.miss + 1)
  {
  }

  lemma TicksMore(n: nat)
    requires n > 0
    ensures Ticks(n) == [Tick(1)] + Ticks(n - 1)
  {
  }

  /** Four is the most: with five ticks between frame starts, a flip just after a frame start that the
      poller has not seen is completed by the fallback before its own. */
  lemma FiveTicksAreTooMany(c: Config, bound: nat, s: State, l: Layer)
    requires bound > 4 && Init(s) && l.width == c.width && l.height == c.height
    ensures exists steps: seq<Step>, t: State ::
              Paced(c, bound, s, 0, steps, t) && |t.log| == 1 && t.log[0].kind == Fallback && t.log[0].live < t.log[0].flip
  {
    hide Run, Init, Paced;
    InitLog(s);
    EnableRuns(c, s, l);
    var on := [EnableVideo(l)] + ManyWrites(5);
    var s1 := VideoOn(s, l);
    var s2 := s1.(miss := 5);
    var s3 := Next(c, s2, FrameStart);
    var s4, flip := Flip(c, s3, l, true);
    var s5 := s4.(miss := 8);
    var t := Next(c, s5, Tick(1));
    assert t.log == [Delivery(3, Fallback, 2, s1.shadow)];
    PacedNone(c, bound, t, 4);
    PacedCons(c, bound, s5, 3, Tick(1), [], t);
    PacedTicks(c, bound, s4, 0, 3, [Tick(1)] + [], t);
    PacedUntimed(c, bound, s3, 0, flip, s4, Ticks(3) + ([Tick(1)] + []), t);
    PacedCons(c, bound, s2, 5, FrameStart, flip + (Ticks(3) + ([Tick(1)] + [])), t);
    PacedTicks(c, bound, s1, 0, 5, [FrameStart] + (flip + (Ticks(3) + ([Tick(1)] + []))), t);
    WritesUntimed(5);
    assert Untimed(on);
    PacedUntimed(c, bound, s, 0, on, s1, Ticks(5) + ([FrameStart] + (flip + (Ticks(3) + ([Tick(1)] + [])))), t);
  }

  /** So the fallback stays away from every such run if and only if at most four ticks pass between
      frame starts. */
  lemma FallbackStaysAwayIff(c: Config, bound: nat, s: State, l: Layer)
    requires Init(s) && l.width == c.width && l.height == c.height
    ensures bound <= 4 <==> forall steps, t :: Paced(c, bound, s, 0, steps, t) ==> NoFallback(t.log, 0)
  {
    hide Paced, Run;
    if bound <= OVERSAMPLE {
      forall steps, t | Paced(c, bound, s, 0, steps, t) ensures NoFallback(t.log, 0) {
        PacedRun(c, bound, s, 0, steps, t, 0);
      }
    } else {
      FiveTicksAreTooMany(c, bound, s, l);
    }
  }

  lemma {:induction false} WritesUntimed(n: nat)
    ensures Untimed(ManyWrites(n))
    decreases n
  {
    if n > 0 { WritesUntimed(n - 1); }
  }
}
