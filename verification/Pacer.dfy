/** The feeder's pacing: an absolute deadline per access unit, a period that stretches while the
    display refuses frames, and a re-base when the deadline has slipped more than two frames. */
module Pacer {
  import opened Wrappers
  import Bits

  const SECOND := 1_000_000_000

  datatype Timespec = Timespec(sec: int, nsec: int)

  function Nanos(t: Timespec): int { t.sec * SECOND + t.nsec }

  predicate Normal(t: Timespec) { 0 <= t.nsec < SECOND }

  /** BLVO_FPS is taken only from 0 to 240; 0 turns pacing off. */
  predicate ValidFps(fps: nat) { fps <= 240 }

  function Nominal(fps: nat): nat
    requires fps > 0
  {
    SECOND / fps
  }

  function TrimMax(nominal: nat): nat { nominal / 100 }

  function TrimStep(nominal: nat): nat { nominal / 4096 + 1 }

  // ---------------------------------------------------------------- on nanoseconds

  datatype Pacing = Pacing(deadline: int, trim: int, lastFails: nat)

  /** A refused frame since the last look stretches the period; a clean one relaxes it. */
  function Trim(p: Pacing, nominal: nat, fails: nat): int {
    if fails != p.lastFails then
      if p.trim < TrimMax(nominal) then p.trim + TrimStep(nominal) else p.trim
    else if p.trim > 0 then
      if p.trim - TrimStep(nominal) < 0 then 0 else p.trim - TrimStep(nominal)
    else p.trim
  }

  function Pace(p: Pacing, nominal: nat, fails: nat, now: int): Pacing {
    var trim := Trim(p, nominal, fails);
    var frame := nominal + trim;
    var deadline := p.deadline + frame;
    Pacing(if now - deadline > 2 * frame then now + frame else deadline, trim, fails)
  }

  // ---------------------------------------------------------------- the loop's own form

  class Feeder {
    var next: Timespec
    var trim: int
    var lastFails: nat

    function View(): Pacing
      reads this
    {
      Pacing(Nanos(next), trim, lastFails)
    }

    constructor (now: Timespec)
      requires Normal(now)
      ensures View() == Pacing(Nanos(now), 0, 0) && Normal(next)
    {
      next, trim, lastFails := now, 0, 0;
    }

    /** Add a period and carry whole seconds. */
    method Advance(frame: int)
      requires Normal(next) && frame >= 0
      modifies this`next
      ensures Normal(next) && Nanos(next) == old(Nanos(next)) + frame
    {
      next := next.(nsec := next.nsec + frame);
      while next.nsec >= SECOND
        invariant next.nsec >= 0 && Nanos(next) == old(Nanos(next)) + frame
        decreases next.nsec
      {
        next := Timespec(next.sec + 1, next.nsec - SECOND);
      }
    }

    /** A track change re-bases the deadline. */
    method TrackChange(now: Timespec)
      requires Normal(now)
      modifies this`next
      ensures Normal(next) && View() == old(View()).(deadline := Nanos(now))
    {
      next := now;
    }

    /** The pacing of one submitted access unit; the deadline is then slept on. */
    method PaceFrame(fps: nat, fails: nat, now: Timespec)
      requires fps > 0 && Normal(next) && Normal(now) && trim >= 0
      modifies this
      ensures Normal(next) && trim >= 0 && View() == Pace(old(View()), Nominal(fps), fails, Nanos(now))
    {
      hide Nominal, TrimMax, TrimStep;
      var nominal := Nominal(fps);
      var trimMax := TrimMax(nominal);
      var trimStep := TrimStep(nominal);
      if fails != lastFails {
        lastFails := fails;
        if trim < trimMax { trim := trim + trimStep; }
      } else if trim > 0 {
        trim := trim - trimStep;
        if trim < 0 { trim := 0; }
      }
      var frame := nominal + trim;
      Advance(frame);
      var behind := (now.sec - next.sec) * SECOND + (now.nsec - next.nsec);
      if behind > 2 * frame {
        next := now;
        Advance(frame);
      }
    }
  }

  // ---------------------------------------------------------------- runs

  /** One turn of the feeder's loop: perhaps a track change, an access unit accepted, the clock
      read, and the end of the sleep. Credit waits and refused sends only move the times apart. */
  datatype Turn = Turn(change: Option<int>, submit: int, now: int, fails: nat, wake: int)

  function Rebased(p: Pacing, t: Turn): Pacing {
    if t.change.Some? then p.(deadline := t.change.value) else p
  }

  function Turned(p: Pacing, nominal: nat, t: Turn): Pacing { Pace(Rebased(p, t), nominal, t.fails, t.now) }

  /** A monotone clock, and a sleep that ends no earlier than its deadline. */
  predicate TurnOk(p: Pacing, nominal: nat, clock: int, t: Turn) {
    && (t.change.Some? ==> clock <= t.change.value <= t.submit)
    && clock <= t.submit <= t.now <= t.wake
    && Turned(p, nominal, t).deadline <= t.wake
  }

  predicate Run(p: Pacing, nominal: nat, clock: int, turns: seq<Turn>)
    decreases turns
  {
    turns == [] ||
    (TurnOk(p, nominal, clock, turns[0]) && Run(Turned(p, nominal, turns[0]), nominal, turns[0].wake, turns[1..]))
  }

  /** Where the feeder starts: a deadline taken from the clock, and a trim in its range. */
  predicate Started(p: Pacing, nominal: nat, clock: int) { p.deadline <= clock && TrimOk(p.trim, nominal) }

  predicate TrimOk(trim: int, nominal: nat) {
    && 0 <= trim <= TrimMax(nominal) + TrimStep(nominal)
    && (TrimMax(nominal) > 0 ==> trim < TrimMax(nominal) + TrimStep(nominal))
  }

  /** The period always lies between nominal and nominal plus 1% plus one step. */
  lemma TrimStays(p: Pacing, nominal: nat, fails: nat)
    requires TrimOk(p.trim, nominal)
    ensures TrimOk(Trim(p, nominal, fails), nominal)
  {
  }

  lemma TurnKeeps(p: Pacing, nominal: nat, clock: int, t: Turn)
    requires Started(p, nominal, clock) && TurnOk(p, nominal, clock, t)
    ensures Started(Turned(p, nominal, t), nominal, t.wake)
    ensures Turned(p, nominal, t).deadline >= p.deadline + nominal
    ensures t.now - Turned(p, nominal, t).deadline <= 2 * (nominal + TrimMax(nominal) + TrimStep(nominal))
  {
  }

  /** From a deadline on, each access unit waits one more nominal period. */
  lemma {:induction false} SubmitsWait(p: Pacing, nominal: nat, clock: int, turns: seq<Turn>, b: nat)
    requires Started(p, nominal, clock) && Run(p, nominal, clock, turns) && b < |turns|
    ensures turns[b].submit >= p.deadline + b * nominal
    decreases turns
  {
    hide Started, TurnOk, Turned;
    TurnStarts(p, nominal, clock, turns[0]);
    if b != 0 {
      TurnKeeps(p, nominal, clock, turns[0]);
      SubmitsWait(Turned(p, nominal, turns[0]), nominal, turns[0].wake, turns[1..], b - 1);
      assert b * nominal == (b - 1) * nominal + nominal;
    }
  }

  lemma TurnStarts(p: Pacing, nominal: nat, clock: int, t: Turn)
    requires Started(p, nominal, clock) && TurnOk(p, nominal, clock, t)
    ensures t.submit >= p.deadline && t.submit <= t.now
  {
  }

  /** Two access units of a run, however far apart, however it went in between. */
  lemma {:induction false} Spacing(p: Pacing, nominal: nat, clock: int, turns: seq<Turn>, a: nat, b: nat)
    requires Started(p, nominal, clock) && Run(p, nominal, clock, turns) && a < b < |turns|
    ensures turns[b].submit - turns[a].submit
            >= (b - a - 1) * nominal - 2 * (nominal + TrimMax(nominal) + TrimStep(nominal))
    decreases turns
  {
    hide Started, TurnOk, Turned, TrimMax, TrimStep;
    var q := Turned(p, nominal, turns[0]);
    TurnKeeps(p, nominal, clock, turns[0]);
    if a == 0 {
      TurnStarts(p, nominal, clock, turns[0]);
      SubmitsWait(q, nominal, turns[0].wake, turns[1..], b - 1);
    } else {
      Spacing(q, nominal, turns[0].wake, turns[1..], a - 1, b - 1);
    }
  }

  lemma TrimIsSmall(fps: nat)
    requires ValidFps(fps) && fps > 0
    ensures Nominal(fps) > 4_000_000
    ensures 2 * (TrimMax(Nominal(fps)) + TrimStep(Nominal(fps))) < Nominal(fps)
  {
    NominalFits(fps, Nominal(fps));
  }

  lemma NominalFits(fps: nat, q: nat)
    requires 0 < fps <= 240 && q == SECOND / fps
    ensures q > 4_000_000
  {
  }

  lemma MoreThan(q: int, r: int, a: nat)
    requires a > 0
    ensures q > r ==> q * a >= r * a + a
  {
    if q > r {
      var d := q - r - 1;
      Bits.MulAtLeast(a, d);
      Distribute(r, d, a);
    }
  }

  lemma Distribute(r: int, d: int, a: int)
    ensures (r + 1 + d) * a == r * a + a + a * d
  {
  }

  lemma AtMost(n: int, nominal: nat, window: nat, more: nat)
    requires nominal > 0 && (n - more) * nominal <= window
    ensures n <= window / nominal + more
  {
    hide *;
    Bits.DivMod(window, nominal);
    MoreThan(n - more, window / nominal, nominal);
  }

  lemma FourFewer(b: int, n: int)
    ensures (b + 1 - 4) * n == (b - 1) * n - 2 * n
  {
  }

  predicate InWindow(t: Turn, start: int, window: nat) { start <= t.submit <= start + window }

  /** The access units accepted in a window of time. */
  function Accepted(turns: seq<Turn>, start: int, window: nat): nat {
    if turns == [] then 0
    else Accepted(turns[1..], start, window) + if InWindow(turns[0], start, window) then 1 else 0
  }

  lemma {:induction false} LastAccepted(turns: seq<Turn>, start: int, window: nat) returns (b: nat)
    requires Accepted(turns, start, window) > 0
    ensures b < |turns| && InWindow(turns[b], start, window) && Accepted(turns, start, window) <= b + 1
    decreases turns
  {
    b := 0;
    if Accepted(turns[1..], start, window) > 0 {
      var c := LastAccepted(turns[1..], start, window);
      b := c + 1;
    }
  }

  /** The most a trim can add to two periods. */
  function Slack(nominal: nat): nat { 2 * (TrimMax(nominal) + TrimStep(nominal)) }

  /** Any time window of any run, whatever the stalls, refusals and track changes: its length and
      the slack over the nominal period, and four more. */
  lemma {:induction false} WindowBound(p: Pacing, n: nat, clock: int, turns: seq<Turn>, start: int, window: nat)
    requires n > 0 && Started(p, n, clock) && Run(p, n, clock, turns)
    ensures Accepted(turns, start, window) <= (window + Slack(n)) / n + 4
    decreases turns
  {
    hide Started, TurnOk, Turned, TrimMax, TrimStep;
    AtMost(4, n, window + Slack(n), 4);
    if turns != [] {
      if !InWindow(turns[0], start, window) {
        TurnKeeps(p, n, clock, turns[0]);
        WindowBound(Turned(p, n, turns[0]), n, turns[0].wake, turns[1..], start, window);
      } else {
        var b := LastAccepted(turns, start, window);
        if b > 0 {
          Spacing(p, n, clock, turns, 0, b);
          FourFewer(b, n);
          AtMost(b + 1, n, window + Slack(n), 4);
        }
      }
    }
  }

  /** Whatever stalls, refusals and track changes occur: any time window of any length holds at
      most its length over the nominal period, plus five, accepted access units. */
  lemma SubmissionsAreBounded(fps: nat, p: Pacing, clock: int, turns: seq<Turn>, start: int, window: nat)
    requires ValidFps(fps) && fps > 0 && Started(p, Nominal(fps), clock) && Run(p, Nominal(fps), clock, turns)
    ensures Accepted(turns, start, window) <= window / Nominal(fps) + 5
  {
    hide Started, Nominal, Run, Accepted, TrimMax, TrimStep;
    var n := Nominal(fps);
    TrimIsSmall(fps);
    WindowBound(p, n, clock, turns, start, window);
    LessThanOneMore(window, Slack(n), n);
  }

  lemma LessThanOneMore(window: nat, slack: nat, n: nat)
    requires slack < n
    ensures (window + slack) / n <= window / n + 1
  {
    hide *;
    Bits.DivMod(window, n);
    Bits.DivMod(window + slack, n);
    MoreThan((window + slack) / n, window / n + 1, n);
    Distribute(window / n, 0, n);
  }

  /** At one instant at most four access units go out, in any run. */
  lemma AtMostFourAtOnce(fps: nat, p: Pacing, clock: int, turns: seq<Turn>, at: int)
    requires ValidFps(fps) && fps > 0 && Started(p, Nominal(fps), clock) && Run(p, Nominal(fps), clock, turns)
    ensures Accepted(turns, at, 0) <= 4
  {
    hide Started, Nominal, Run, Accepted, TrimMax, TrimStep;
    var n := Nominal(fps);
    TrimIsSmall(fps);
    WindowBound(p, n, clock, turns, at, 0);
    Bits.DivUnique(Slack(n), n, 0, Slack(n));
  }

  /** Exactly when lost time is made up: a deadline is already past, so the next access unit goes
      out unpaced, if and only if it has slipped by no more than two frames. */
  lemma UnpacedIff(p: Pacing, nominal: nat, fails: nat, now: int)
    requires nominal > 0 && TrimOk(p.trim, nominal)
    ensures var frame := nominal + Trim(p, nominal, fails);
            Pace(p, nominal, fails, now).deadline <= now <==> 0 <= now - (p.deadline + frame) <= 2 * frame
  {
    hide Trim, TrimOk;
    TrimStays(p, nominal, fails);
    TrimPositive(Trim(p, nominal, fails), nominal);
  }

  lemma TrimPositive(trim: int, nominal: nat)
    requires TrimOk(trim, nominal)
    ensures trim >= 0
  {
  }

  /** Four is reached: a feeder exactly two frames behind submits that many at one instant. */
  lemma BurstOfFour(fps: nat, now: int)
    requires ValidFps(fps) && fps > 0
    ensures exists p: Pacing, turns: seq<Turn> ::
              Started(p, Nominal(fps), now) && Run(p, Nominal(fps), now, turns) && Accepted(turns, now, 0) == 4
  {
    var n := Nominal(fps);
    TrimIsSmall(fps);
    var p := Pacing(now - 3 * n, 0, 0);
    var t := Turn(None, now, now, 0, now);
    var last := t.(wake := now + n);
    var turns := [t, t, t, last];
    BurstRuns(n, now);
    assert turns[1..] == [t, t, last] && turns[1..][1..] == [t, last] && [t, last][1..] == [last];
    assert Accepted([last], now, 0) == 1;
    assert Accepted([t, last], now, 0) == 2;
    assert Accepted([t, t, last], now, 0) == 3;
  }

  lemma BurstRuns(n: nat, now: int)
    requires n > 0
    ensures var t := Turn(None, now, now, 0, now);
            Run(Pacing(now - 3 * n, 0, 0), n, now, [t, t, t, t.(wake := now + n)])
  {
    var t := Turn(None, now, now, 0, now);
    var last := t.(wake := now + n);
    assert Turned(Pacing(now - 3 * n, 0, 0), n, t) == Pacing(now - 2 * n, 0, 0);
    assert Turned(Pacing(now - 2 * n, 0, 0), n, t) == Pacing(now - n, 0, 0);
    assert Turned(Pacing(now - n, 0, 0), n, t) == Pacing(now, 0, 0);
    assert Turned(Pacing(now, 0, 0), n, last) == Pacing(now + n, 0, 0);
    assert Run(Pacing(now, 0, 0), n, now, [last]);
    assert [t, last][1..] == [last];
    assert Run(Pacing(now - n, 0, 0), n, now, [t, last]);
    assert [t, t, last][1..] == [t, last];
    assert Run(Pacing(now - 2 * n, 0, 0), n, now, [t, t, last]);
    assert [t, t, t, last][1..] == [t, t, last];
  }

  // ---------------------------------------------------------------- which way the period goes

  /** At 60 frames a second: a sixtieth of a second, a hundredth of that at most, in steps of 4070. */
  lemma SixtyFps()
    ensures Nominal(60) == 16_666_666 && TrimMax(Nominal(60)) == 166_666 && TrimStep(Nominal(60)) == 4070
  {
  }

  /** The pacing after a number of turns. */
  function After(p: Pacing, nominal: nat, turns: seq<Turn>): Pacing
    decreases turns
  {
    if turns == [] then p else After(Turned(p, nominal, turns[0]), nominal, turns[1..])
  }

  /** Each turn finds a refusal since the turn before it; or none does. */
  predicate AlwaysRefused(last: nat, turns: seq<Turn>)
    decreases turns
  {
    turns == [] || (turns[0].fails != last && AlwaysRefused(turns[0].fails, turns[1..]))
  }

  predicate NeverRefused(last: nat, turns: seq<Turn>) { forall i :: 0 <= i < |turns| ==> turns[i].fails == last }

  /** A refusal stretches the period by a step until it is 1% longer, and is then remembered; a turn
      without one takes a step back towards nominal. */
  lemma OneTurnTrims(p: Pacing, nominal: nat, t: Turn)
    requires p.trim >= 0
    ensures var q := Turned(p, nominal, t);
            && q.lastFails == t.fails && q.trim >= 0
            && (t.fails != p.lastFails ==> q.trim == if p.trim < nominal / 100 then p.trim + nominal / 4096 + 1 else p.trim)
            && (t.fails == p.lastFails ==> q.trim == Bits.Max(0, p.trim - (nominal / 4096 + 1)))
  {
  }

  /** With a refusal every turn the period grows by a step a turn until it is 1% longer, and stays
      there. */
  lemma {:induction false} RefusalsStretch(p: Pacing, nominal: nat, turns: seq<Turn>)
    requires p.trim >= 0 && AlwaysRefused(p.lastFails, turns)
    ensures After(p, nominal, turns).trim >= p.trim
    ensures After(p, nominal, turns).trim >= nominal / 100
            || After(p, nominal, turns).trim == p.trim + |turns| * (nominal / 4096 + 1)
    decreases turns
  {
    hide Turned;
    if turns != [] {
      OneTurnTrims(p, nominal, turns[0]);
      RefusalsStretch(Turned(p, nominal, turns[0]), nominal, turns[1..]);
      OneMoreStep(|turns|, nominal / 4096 + 1);
    }
  }

  /** Without refusals it goes back to nominal by a step a turn. */
  lemma {:induction false} CleanTurnsRelax(p: Pacing, nominal: nat, turns: seq<Turn>)
    requires p.trim >= 0 && NeverRefused(p.lastFails, turns)
    ensures After(p, nominal, turns).trim == Bits.Max(0, p.trim - |turns| * (nominal / 4096 + 1))
    decreases turns
  {
    hide Turned;
    if turns != [] {
      OneTurnTrims(p, nominal, turns[0]);
      assert turns[0].fails == p.lastFails;
      CleanTurnsRelax(Turned(p, nominal, turns[0]), nominal, turns[1..]);
      OneMoreStep(|turns|, nominal / 4096 + 1);
    }
  }

  lemma OneMoreStep(n: nat, step: nat)
    requires n > 0
    ensures n * step == (n - 1) * step + step && (n - 1) * step >= 0
  {
  }

  /** Forty-one turns cross the whole range at any frame rate, though forty do not at 60 frames a
      second. */
  lemma RangeInFortyOne(p: Pacing, nominal: nat, turns: seq<Turn>)
    requires p.trim >= 0 && AlwaysRefused(p.lastFails, turns) && |turns| >= 41
    ensures After(p, nominal, turns).trim >= nominal / 100
    ensures 40 * TrimStep(Nominal(60)) < TrimMax(Nominal(60))
  {
    RefusalsStretch(p, nominal, turns);
    var step := nominal / 4096 + 1;
    StepsAtLeast(|turns|, 41, step);
    assert 41 * step >= nominal / 100;
  }

  lemma StepsAtLeast(n: nat, m: nat, step: nat)
    requires n >= m
    ensures n * step >= m * step
  {
    OneMoreStep(n - m + 1, step);
    assert n * step == m * step + (n - m) * step;
  }
}
