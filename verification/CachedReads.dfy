/** What a reader of a cached map sees, said of the actions alone: the writes that memory took, and
    the reader's latest START. */
module CachedReads {
  import opened CachedMap

  /** What a line of memory holds after the actions: the last value written to it, or what it began
      with. */
  function Memory(first: Contents, steps: seq<Step>, line: int): int
    decreases |steps|
  {
    if steps == [] then first(line)
    else
      var n := |steps| - 1;
      if steps[n].Write? && steps[n].line == line then steps[n].value else Memory(first, steps[..n], line)
  }

  /** How many actions there had been when a START of the map, or its mmap, last returned; what
      splits off a map has its past. */
  function Started(steps: seq<Step>, v: nat): (k: nat)
    ensures k <= |steps|
    decreases |steps|
  {
    if steps == [] then 0
    else
      var n := |steps| - 1;
      if steps[n] == MmapSync(v) || steps[n] == StartSync(v) then n + 1
      else if steps[n].Split? && steps[n].w == v then Started(steps[..n], steps[n].v)
      else Started(steps[..n], v)
  }

  function Writes(steps: seq<Step>): nat
    decreases |steps|
  {
    if steps == [] then 0
    else Writes(steps[..|steps| - 1]) + if steps[|steps| - 1].Write? then 1 else 0
  }

  /** A run and its last action. */
  lemma {:induction false} RunLast(s: State, steps: seq<Step>, t: State) returns (u: State)
    requires steps != [] && Run(s, steps, t)
    ensures var n := |steps| - 1;
            Run(s, steps[..n], u) && |u.past| > 0 && Enabled(u, steps[n]) && Next(u, steps[n]) == t
    decreases |steps|
  {
    hide Enabled, Next;
    var n := |steps| - 1;
    if n == 0 {
      u := s;
    } else {
      u := RunLast(Next(s, steps[0]), steps[1..], t);
      assert steps[1..][..n - 1] == steps[..n][1..];
    }
  }

  /** Time counts the writes, and the current memory is what they made it. */
  ghost predicate Written(s: State, steps: seq<Step>, t: State) {
    && 0 < |s.past| && |t.past| == |s.past| + Writes(steps)
    && forall line :: t.past[Now(t)](line) == Memory(s.past[Now(s)], steps, line)
  }

  /** Each map's time is that of its latest START. */
  ghost predicate Dated(s: State, steps: seq<Step>, t: State) {
    forall v :: v in t.vmas && t.vmas[v].ready ==>
      t.vmas[v].since == Now(s) + Writes(steps[..Started(steps, v)])
  }

  lemma WriteAgrees(s: State, steps: seq<Step>, u: State)
    requires steps != [] && |u.past| > 0 && Enabled(u, steps[|steps| - 1]) && Written(s, steps[..|steps| - 1], u)
    ensures Written(s, steps, Next(u, steps[|steps| - 1]))
  {
    hide Enabled, Next;
    var n := |steps| - 1;
    var t := Next(u, steps[n]);
    OnlyWrites(u, steps[n]);
    forall line ensures t.past[Now(t)](line) == Memory(s.past[Now(s)], steps, line) {
      assert u.past[Now(u)](line) == Memory(s.past[Now(s)], steps[..n], line);
    }
  }

  /** Memory changes in one place at a write, and else not at all. */
  lemma OnlyWrites(u: State, a: Step)
    requires |u.past| > 0 && Enabled(u, a)
    ensures var t := Next(u, a); |t.past| == |u.past| + if a.Write? then 1 else 0
    ensures var t := Next(u, a);
            forall line :: t.past[Now(t)](line) == if a.Write? && a.line == line then a.value else u.past[Now(u)](line)
  {
  }

  /** A map's time changes when its mmap or a START of it returns, and a split copies it. */
  lemma OnlyStarts(u: State, a: Step, v: nat)
    requires |u.past| > 0 && Enabled(u, a) && v in Next(u, a).vmas && Next(u, a).vmas[v].ready
    ensures a == MmapSync(v) || a == StartSync(v) ==> Next(u, a).vmas[v].since == Now(u) && !a.Write?
    ensures a.Split? && a.w == v ==>
              a.v in u.vmas && u.vmas[a.v].ready && Next(u, a).vmas[v].since == u.vmas[a.v].since
    ensures a != MmapSync(v) && a != StartSync(v) && !(a.Split? && a.w == v) ==>
              v in u.vmas && u.vmas[v].ready && Next(u, a).vmas[v].since == u.vmas[v].since
  {
  }

  lemma StartAgrees(s: State, steps: seq<Step>, u: State)
    requires steps != [] && |s.past| > 0 && |u.past| > 0 && Enabled(u, steps[|steps| - 1])
    requires |u.past| == |s.past| + Writes(steps[..|steps| - 1]) && Dated(s, steps[..|steps| - 1], u)
    ensures Dated(s, steps, Next(u, steps[|steps| - 1]))
  {
    hide Enabled, Next;
    var n := |steps| - 1;
    var pre, t := steps[..n], Next(u, steps[n]);
    forall v | v in t.vmas && t.vmas[v].ready
      ensures t.vmas[v].since == Now(s) + Writes(steps[..Started(steps, v)])
    {
      OnlyStarts(u, steps[n], v);
      assert steps[..n + 1] == steps;
      assert pre[..Started(pre, v)] == steps[..Started(pre, v)];
      if steps[n].Split? { assert pre[..Started(pre, steps[n].v)] == steps[..Started(pre, steps[n].v)]; }
    }
  }

  lemma {:induction false} RunAgrees(s: State, steps: seq<Step>, t: State)
    requires |s.past| > 0 && s.vmas == map[] && Run(s, steps, t)
    ensures Written(s, steps, t) && Dated(s, steps, t)
    decreases |steps|
  {
    hide Enabled, Next, Dated;
    if steps == [] {
      NoneAgrees(s);
    } else {
      var u := RunLast(s, steps, t);
      RunAgrees(s, steps[..|steps| - 1], u);
      WriteAgrees(s, steps, u);
      StartAgrees(s, steps, u);
    }
  }

  lemma NoneAgrees(s: State)
    requires |s.past| > 0 && s.vmas == map[]
    ensures Written(s, [], s) && Dated(s, [], s)
  {
  }

  /** The past is the memory after each beginning of the run. */
  lemma {:induction false} PastIs(s: State, steps: seq<Step>, t: State, k: nat, line: int)
    requires |s.past| > 0 && s.vmas == map[] && Run(s, steps, t) && k <= |steps|
    ensures Now(s) + Writes(steps[..k]) < |t.past|
    ensures t.past[Now(s) + Writes(steps[..k])](line) == Memory(s.past[Now(s)], steps[..k], line)
    decreases |steps|
  {
    hide Enabled, Next, Dated;
    if k == |steps| {
      assert steps[..k] == steps;
      RunAgrees(s, steps, t);
    } else {
      var u := RunLast(s, steps, t);
      var n := |steps| - 1;
      PastIs(s, steps[..n], u, k, line);
      assert steps[..n][..k] == steps[..k];
      PastStays(u, steps[n]);
    }
  }

  /** Writes come one at a time, so there is a beginning of the run with any number of them. */
  lemma {:induction false} Reached(steps: seq<Step>, from: nat, n: nat) returns (k: nat)
    requires from <= |steps| && Writes(steps[..from]) <= n <= Writes(steps)
    ensures from <= k <= |steps| && Writes(steps[..k]) == n
    decreases |steps|
  {
    assert steps[..|steps|] == steps;
    if from == |steps| || n == Writes(steps) {
      k := |steps|;
    } else {
      var pre := steps[..|steps| - 1];
      assert pre[..from] == steps[..from];
      k := Reached(pre, from, n);
      assert pre[..k] == steps[..k];
    }
  }

  /** The line a read returns was filled after the reader's latest START. */
  lemma ReadIs(s: State, pre: seq<Step>, u: State, v: nat, line: int) returns (f: nat)
    requires Init(s) && Run(s, pre, u) && |u.past| > 0 && Enabled(u, Read(v, line))
    ensures u.vmas[v].since <= f < |u.past|
    ensures Next(u, Read(v, line)).log == u.log + [Seen(line, u.past[f](line), u.vmas[v].since, Now(u))]
  {
    hide Run, ReadsTrue;
    InitInv(s);
    RunInv(s, pre, u);
    f := if line in u.cache then u.cache[line].filled else Now(u);
  }

  /** In every run, what a read returns is what memory held after some number of the actions before
      it, no fewer than there had been when the reader's latest START, or its mmap, returned. */
  lemma ReadSeesAMoment(s: State, steps: seq<Step>, t: State, v: nat, line: int) returns (k: nat)
    requires Init(s) && steps != [] && steps[|steps| - 1] == Read(v, line) && Run(s, steps, t)
    ensures var pre := steps[..|steps| - 1];
            && t.log != [] && Started(pre, v) <= k <= |pre|
            && t.log[|t.log| - 1].value == Memory(s.past[Now(s)], pre[..k], line)
  {
    hide Run, Next, LinesTrue;
    var u := RunLast(s, steps, t);
    var pre := steps[..|steps| - 1];
    var f := ReadIs(s, pre, u, v, line);
    RunAgrees(s, pre, u);
    k := Reached(pre, Started(pre, v), f - Now(s));
    PastIs(s, pre, u, k, line);
  }

  /** So a read of a line that nothing wrote since the reader's latest START is exact. */
  lemma {:induction false} QuietReadIsLatest(s: State, steps: seq<Step>, t: State, v: nat, line: int)
    requires Init(s) && steps != [] && steps[|steps| - 1] == Read(v, line) && Run(s, steps, t)
    requires forall i :: Started(steps[..|steps| - 1], v) <= i < |steps| - 1 && steps[i].Write? ==> steps[i].line != line
    ensures t.log != [] && t.log[|t.log| - 1].value == Memory(s.past[Now(s)], steps, line)
  {
    hide Run, LinesTrue;
    var k := ReadSeesAMoment(s, steps, t, v, line);
    var pre := steps[..|steps| - 1];
    assert pre[..k] == steps[..k];
    Unwritten(s.past[Now(s)], steps, k, line);
  }

  lemma {:induction false} Unwritten(first: Contents, steps: seq<Step>, k: nat, line: int)
    requires k <= |steps| && forall i :: k <= i < |steps| && steps[i].Write? ==> steps[i].line != line
    ensures Memory(first, steps, line) == Memory(first, steps[..k], line)
    decreases |steps|
  {
    if k == |steps| {
      assert steps[..k] == steps;
    } else {
      var pre := steps[..|steps| - 1];
      assert pre[..k] == steps[..k];
      Unwritten(first, pre, k, line);
    }
  }

  /** With cached_mmap off, and never turned on, no map is cached and nothing is read through one;
      on a coherent device it cannot be turned on. */
  lemma {:induction false} OffMapsNothing(s: State, steps: seq<Step>, t: State)
    requires Run(s, steps, t) && !s.cachedMmap && s.vmas == map[]
    requires forall i :: 0 <= i < |steps| ==> steps[i] != Toggle(true)
    ensures !t.cachedMmap && t.vmas == map[] && t.cachedMaps == s.cachedMaps && t.log == s.log
    decreases steps
  {
    if steps != [] {
      var u := Next(s, steps[0]);
      assert u.vmas == map[] && !u.cachedMmap;
      OffMapsNothing(u, steps[1..], t);
    }
  }
}
