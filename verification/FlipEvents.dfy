/** That flip events go out: every one asked for is kept until it is sent, a frame start the poller
    sees sends it, and vbl_div paces them. */
module FlipEvents {
  import opened Wrappers
  import opened PageFlip

  /** vbl_div, with 0 as 1. */
  function Division(div: nat): nat { if div == 0 then 1 else div }

  predicate Sees(s: State, a: Step) { a.Tick? && s.status }

  /** A tick that counts as a vblank: it sees a frame start, or has missed nine in a row. */
  predicate Counts(s: State, a: Step) { a.Tick? && (s.status || s.miss >= 8) }

  predicate Sent(s: State, f: nat) { exists i :: 0 <= i < |s.log| && s.log[i].flip == f }

  /** A tick that sees a frame start with the gate full sends exactly the armed events, in order, as
      seen at a frame start, and arms none. */
  lemma SeenTickSends(c: Config, s: State, div: nat)
    requires s.status && s.gate + 1 >= Division(div)
    ensures var t := Next(c, s, Tick(div));
            && t.armed == [] && t.gate == 0 && |t.log| == |s.log| + |s.armed| && t.log[..|s.log|] == s.log
            && forall i :: 0 <= i < |s.armed| ==> t.log[|s.log| + i] == Delivery(s.armed[i], Real, s.live, s.working)
  {
  }

  /** With the gate not full it sends none, and fills the gate by one. */
  lemma EarlyTickWaits(c: Config, s: State, div: nat)
    requires s.status && s.gate + 1 < Division(div)
    ensures var t := Next(c, s, Tick(div)); t.armed == s.armed && t.log == s.log && t.gate == s.gate + 1
  {
  }

  lemma StepKeepsEvent(c: Config, serial: bool, s: State, a: Step, f: nat)
    requires Enabled(c, serial, s, a) && (f in s.armed || Sent(s, f))
    ensures f in Next(c, s, a).armed || Sent(Next(c, s, a), f)
  {
    hide Enabled, Next;
    var t := Next(c, s, a);
    LogOnlyGrows(c, s, a);
    if Sent(s, f) {
      var i :| 0 <= i < |s.log| && s.log[i].flip == f;
      assert t.log[i].flip == f;
    } else if f !in t.armed {
      var k :| 0 <= k < |s.armed| && s.armed[k] == f;
      AllGoOut(c, s, a);
      assert t.log[|s.log| + k].flip == f;
    }
  }

  lemma LogOnlyGrows(c: Config, s: State, a: Step)
    ensures s.log <= Next(c, s, a).log
  {
    hide Apply, Writes, Recalled, Completes, SetGeometry, SetAddresses, SetLayer;
  }

  predicate GoOut(s: State, t: State) {
    |t.log| == |s.log| + |s.armed| && forall i :: 0 <= i < |s.armed| ==> t.log[|s.log| + i].flip == s.armed[i]
  }

  /** A step keeps all armed events, or sends all of them. */
  lemma AllGoOut(c: Config, s: State, a: Step)
    ensures s.armed <= Next(c, s, a).armed || GoOut(s, Next(c, s, a))
  {
    if a.Tick? || a.Disable? { CompletionSendsAll(c, s, a); } else { OthersKeepAll(c, s, a); }
  }

  lemma CompletionSendsAll(c: Config, s: State, a: Step)
    requires a.Tick? || a.Disable?
    ensures Next(c, s, a).armed == s.armed || GoOut(s, Next(c, s, a))
  {
    hide GoOut;
    if a.Disable? {
      CompleteSends(s, s.(vblanks := false), VblankOff);
      SameLog(s, Complete(s.(vblanks := false), VblankOff), Next(c, s, a));
    } else {
      TickSends(s, a.div);
    }
  }

  lemma TickSends(s: State, div: nat)
    ensures Poll(s, div).armed == s.armed || GoOut(s, Poll(s, div))
  {
    hide GoOut, Complete;
    var s1 := s.(status := false, miss := 0, gate := 0);
    CompleteSends(s, s1, if s.status then Real else Fallback);
  }

  lemma CompleteSends(s: State, s1: State, k: Kind)
    requires s1.armed == s.armed && s1.log == s.log
    ensures GoOut(s, Complete(s1, k))
  {
  }

  lemma SameLog(s: State, t: State, u: State)
    requires GoOut(s, t) && u.log == t.log
    ensures GoOut(s, u)
  {
  }

  lemma OthersKeepAll(c: Config, s: State, a: Step)
    requires !a.Tick? && !a.Disable?
    ensures s.armed <= Next(c, s, a).armed
  {
    hide Apply, Writes, Recalled, Completes, SetGeometry, SetAddresses, SetLayer;
  }

  /** An event asked for is armed, or sent at once with vblanks off; and it stays armed until sent. */
  lemma AskedIsArmed(c: Config, s: State)
    ensures var t := Next(c, s, Arm(true)); if s.vblanks then |s.requests| in t.armed else Sent(t, |s.requests|)
  {
    var t := Next(c, s, Arm(true));
    if s.vblanks { assert t.armed[|s.armed|] == |s.requests|; } else { assert t.log[|s.log|].flip == |s.requests|; }
  }

  lemma {:induction false} EventIsKept(c: Config, serial: bool, s: State, steps: seq<Step>, t: State, f: nat)
    requires Run(c, serial, s, steps, t) && (f in s.armed || Sent(s, f))
    ensures f in t.armed || Sent(t, f)
    decreases steps
  {
    hide Enabled, Next, Sent;
    if |steps| != 0 {
      StepKeepsEvent(c, serial, s, steps[0], f);
      EventIsKept(c, serial, Next(c, s, steps[0]), steps[1..], t, f);
    }
  }

  // ---------------------------------------------------------------- after at most vbl_div frame starts

  /** The frame starts the poller sees in a run. */
  function SeenIn(c: Config, s: State, steps: seq<Step>): nat
    decreases steps
  {
    if |steps| == 0 then 0
    else SeenIn(c, Next(c, s, steps[0]), steps[1..]) + if Sees(s, steps[0]) then 1 else 0
  }

  predicate DivisionsAtMost(steps: seq<Step>, d: nat) {
    forall i :: 0 <= i < |steps| && steps[i].Tick? ==> Division(steps[i].div) <= d
  }

  /** Until it is sent, every frame start seen fills the gate. */
  lemma WaitingFillsGate(c: Config, serial: bool, s: State, a: Step, f: nat, d: nat)
    requires Enabled(c, serial, s, a) && f in s.armed && (a.Tick? ==> Division(a.div) <= d)
    ensures var t := Next(c, s, a);
            Sent(t, f) || (f in t.armed && t.gate >= s.gate + (if Sees(s, a) then 1 else 0) && (Sees(s, a) ==> t.gate < d)
                           && (s.gate < d ==> t.gate < d))
  {
    hide Apply, Writes, Recalled, Completes, SetGeometry, SetAddresses, SetLayer, Sent;
    StepKeepsEvent(c, serial, s, a, f);
  }

  lemma {:induction false} SentOrWaiting(c: Config, serial: bool, s: State, steps: seq<Step>, t: State, f: nat, d: nat)
    requires Run(c, serial, s, steps, t) && f in s.armed && DivisionsAtMost(steps, d)
    ensures Sent(t, f) || (f in t.armed && t.gate >= s.gate + SeenIn(c, s, steps)
                           && (SeenIn(c, s, steps) > 0 || s.gate < d ==> t.gate < d))
    decreases steps
  {
    hide Enabled, Next, Sent, Sees;
    if |steps| != 0 {
      var s1 := Next(c, s, steps[0]);
      WaitingFillsGate(c, serial, s, steps[0], f, d);
      if Sent(s1, f) { SentStays(c, serial, s1, steps[1..], t, f); }
      else { SentOrWaiting(c, serial, s1, steps[1..], t, f, d); }
    }
  }

  lemma {:induction false} SentStays(c: Config, serial: bool, s: State, steps: seq<Step>, t: State, f: nat)
    requires Run(c, serial, s, steps, t) && Sent(s, f)
    ensures Sent(t, f)
    decreases steps
  {
    hide Enabled, Next;
    if |steps| != 0 {
      var s1 := Next(c, s, steps[0]);
      LogOnlyGrows(c, s, steps[0]);
      var i :| 0 <= i < |s.log| && s.log[i].flip == f;
      assert s1.log[i].flip == f;
      SentStays(c, serial, s1, steps[1..], t, f);
    }
  }

  /** An armed event is sent by the time the poller has seen vbl_div frame starts, whatever else
      happens. */
  lemma SentWithinDivision(c: Config, serial: bool, s: State, steps: seq<Step>, t: State, f: nat, d: nat)
    requires Run(c, serial, s, steps, t) && f in s.armed && DivisionsAtMost(steps, d) && d > 0 && SeenIn(c, s, steps) >= d
    ensures Sent(t, f)
  {
    hide Run, SeenIn, Sent;
    SentOrWaiting(c, serial, s, steps, t, f, d);
  }

  // ---------------------------------------------------------------- and not before

  function VblanksIn(c: Config, s: State, steps: seq<Step>): nat
    decreases steps
  {
    if |steps| == 0 then 0
    else VblanksIn(c, Next(c, s, steps[0]), steps[1..]) + if Counts(s, steps[0]) then 1 else 0
  }

  predicate DivisionsAtLeast(steps: seq<Step>, d: nat) {
    forall i :: 0 <= i < |steps| && steps[i].Tick? ==> Division(steps[i].div) >= d
  }

  predicate OnlyOff(log: seq<Delivery>, n: nat) { forall i :: n <= i < |log| ==> log[i].kind.VblankOff? }

  lemma StepSendsNone(c: Config, serial: bool, s: State, a: Step, d: nat, n: nat)
    requires Enabled(c, serial, s, a) && (a.Tick? ==> Division(a.div) >= d) && OnlyOff(s.log, n)
    requires s.gate + (if Counts(s, a) then 1 else 0) < d
    ensures OnlyOff(Next(c, s, a).log, n) && Next(c, s, a).gate == s.gate + if Counts(s, a) then 1 else 0
  {
    hide Apply, Writes, Recalled, Completes, SetGeometry, SetAddresses, SetLayer;
  }

  /** From a completion, which leaves the gate empty, to the next there are at least vbl_div vblanks:
      with fewer, nothing goes out but what is sent with vblanks off. */
  lemma {:induction false} NoneBeforeDivision(c: Config, serial: bool, s: State, steps: seq<Step>, t: State, d: nat, n: nat)
    requires Run(c, serial, s, steps, t) && DivisionsAtLeast(steps, d) && OnlyOff(s.log, n)
    requires s.gate + VblanksIn(c, s, steps) < d
    ensures OnlyOff(t.log, n)
    decreases steps
  {
    hide Enabled, Next, OnlyOff, Counts;
    if |steps| != 0 {
      StepSendsNone(c, serial, s, steps[0], d, n);
      NoneBeforeDivision(c, serial, Next(c, s, steps[0]), steps[1..], t, d, n);
    }
  }
}
