/** The release queue, the worker's hand-over and the table of exported buffers as coda-cube keeps
    them: arrays with a count, updated in place. Each function is the protocol's step. */
module FrameQueues {
  import opened Wrappers
  import opened ZeroCopy

  predicate Distinct(s: seq<Frame>) { forall i, j :: 0 <= i < j < |s| ==> s[i] != s[j] }

  function ToSet(s: seq<Frame>): set<Frame> { set x | x in s }

  lemma {:induction false} DistinctSize(s: seq<Frame>)
    requires Distinct(s)
    ensures |ToSet(s)| == |s|
    decreases |s|
  {
    if s != [] {
      var n := |s| - 1;
      DistinctSize(s[..n]);
      assert ToSet(s) == ToSet(s[..n]) + {s[n]};
    }
  }

  /** The frames of the table that are marked. */
  function Marked(pa: seq<Frame>, busy: seq<bool>): set<Frame>
    requires |pa| == |busy|
  {
    set i | 0 <= i < |pa| && busy[i] :: pa[i]
  }

  /** Every frame of the main thread's queue goes back to the decoder. */
  function FlushAll(s: State): State
    decreases |s.rel|
  {
    if |s.rel| == 0 then s else FlushAll(FlushOne(s))
  }

  /** Every frame handed to the worker goes back to the decoder. */
  function WorkerFlushAll(s: State): State
    decreases |s.w.rel|
  {
    if |s.w.rel| == 0 then s else WorkerFlushAll(WorkerFlushOne(s))
  }

  /** Flushing the queue is a run of the protocol. */
  lemma {:induction false} FlushAllRuns(m: Mode, s: State) returns (steps: seq<Action>)
    requires s.pc == ExitFlush || (s.pc == LoopTop && !m.pipeline)
    ensures Run(m, s, steps, FlushAll(s)) && FlushAll(s).rel == []
    decreases |s.rel|
  {
    steps := [];
    if |s.rel| > 0 {
      var rest := FlushAllRuns(m, FlushOne(s));
      steps := [Flush] + rest;
      assert steps[1..] == rest;
    }
  }

  /** So are the worker's releases. */
  lemma {:induction false} WorkerFlushAllRuns(m: Mode, s: State) returns (steps: seq<Action>)
    requires s.w.busy
    ensures Run(m, s, steps, WorkerFlushAll(s)) && WorkerFlushAll(s).w.rel == []
    decreases |s.w.rel|
  {
    steps := [];
    if |s.w.rel| > 0 {
      var rest := WorkerFlushAllRuns(m, WorkerFlushOne(s));
      steps := [WorkerRelease] + rest;
      assert steps[1..] == rest;
    }
  }

  /** A flush gives the decoder exactly the queued frames. */
  lemma {:induction false} FlushGives(s: State)
    ensures FlushAll(s).dec == s.dec + ToSet(s.rel) && FlushAll(s).rel == [] && FlushAll(s).pc == s.pc
    decreases |s.rel|
  {
    if |s.rel| > 0 {
      FlushGives(FlushOne(s));
      assert s.rel == [s.rel[0]] + s.rel[1..];
    }
  }

  lemma {:induction false} WorkerFlushGives(s: State)
    ensures WorkerFlushAll(s).dec == s.dec + ToSet(s.w.rel) && WorkerFlushAll(s).w.rel == [] && WorkerFlushAll(s).rel == s.rel
    decreases |s.w.rel|
  {
    if |s.w.rel| > 0 {
      WorkerFlushGives(WorkerFlushOne(s));
      assert s.w.rel == [s.w.rel[0]] + s.w.rel[1..];
    }
  }

  /** In every run a release the compositor sent is delivered once: its frame is unmarked and queued,
      for the thread that decodes. */
  lemma ReleaseIsQueued(m: Mode, pool: set<Frame>, steps: seq<Action>, t: State)
    requires Run(m, Init(m, pool), steps, t) && Enabled(m, t, Dispatch)
    ensures t.events[0] in t.busy
    ensures var u := Next(m, t, Dispatch);
            && u.rel == t.rel + [t.events[0]] && u.busy == t.busy - {t.events[0]}
            && u.dec == t.dec && u.events == t.events[1..] && u.held == t.held
  {
    hide Run, Owners, Control, Tabled;
    InitInv(m, pool);
    RunInv(m, pool, Init(m, pool), steps, t);
    QueueRoom(m, pool, t);
    assert t.events[0] in multiset(t.events);
    assert t.events[0] in multiset(t.busy);
  }

  /** Every queued frame is the decoder's before the next picture is asked for: pipelined, once the
      worker has done its releases, else once the loop has. */
  lemma QueuedComesBack(m: Mode, s: State, f: Frame)
    requires f in s.rel
    ensures m.pipeline && Enabled(m, s, HandOver) ==>
              var u := WorkerFlushAll(Next(m, s, HandOver)); f in u.dec && u.rel == [] && u.w.rel == []
    ensures !m.pipeline && s.pc == LoopTop ==>
              var u := FlushAll(s); f in u.dec && u.rel == [] && Enabled(m, u, StartDecode)
  {
    hide FlushAll, WorkerFlushAll;
    FlushGives(s);
    if m.pipeline && Enabled(m, s, HandOver) { WorkerFlushGives(Next(m, s, HandOver)); }
  }

  class Queues {
    const rel: array<Frame>         // g_rel
    var nrel: nat
    const workerRel: array<Frame>   // Worker.rel
    var workerNrel: nat
    var workerBusy: bool
    const pa: array<Frame>          // g_zc
    const busy: array<bool>
    var nzc: nat
    var dec: set<Frame>             // the decoder's own frames
    var fault: bool
    ghost var others: State         // what these functions do not touch

    ghost predicate Valid()
      reads this, rel, workerRel, pa, busy
    {
      && rel.Length == workerRel.Length == pa.Length == busy.Length == MAX_HELD
      && rel != workerRel && rel != pa && workerRel != pa
      && nrel <= MAX_HELD && workerNrel <= MAX_HELD && nzc <= MAX_HELD && Distinct(pa[..nzc])
    }

    ghost function View(): State
      requires Valid()
      reads this, rel, workerRel, pa, busy
    {
      others.(rel := rel[..nrel], busy := Marked(pa[..nzc], busy[..nzc]), known := ToSet(pa[..nzc]),
              dec := dec, fault := fault,
              w := others.w.(busy := workerBusy, rel := workerRel[..workerNrel]))
    }

    /** VDEC_RELEASE_FRAME */
    method VdRelease(f: Frame)
      requires Valid()
      modifies this`dec, this`fault
      ensures Valid() && View() == Release(old(View()), f)
    {
      fault := fault || f in dec || (exists i :: 0 <= i < nzc && busy[i] && pa[i] == f);
      dec := dec + {f};
    }

    /** rel_push */
    method Push(f: Frame)
      requires Valid()
      modifies this`nrel, this`fault, rel
      ensures Valid() && View() == RelPush(old(View()), f)
    {
      if nrel == MAX_HELD {
        fault := true;
        return;
      }
      rel[nrel] := f;
      nrel := nrel + 1;
    }

    /** rel_flush */
    method Flush()
      requires Valid()
      modifies this`nrel, this`dec, this`fault
      ensures Valid() && View() == FlushAll(old(View()))
    {
      hide Marked, ToSet, FlushAll, Release;
      ghost var all := rel[..nrel];
      var i := 0;
      while i < nrel
        invariant 0 <= i <= nrel && Valid() && nrel == old(nrel)
        invariant FlushAll(View().(rel := all[i..])) == FlushAll(old(View()))
      {
        ghost var s := View();
        VdRelease(rel[i]);
        FlushStep(s, all[i..]);
        assert all[i..][1..] == all[i + 1..];
        i := i + 1;
      }
      nrel := 0;
      assert all[i..] == [];
      FlushNone(View());
    }

    /** worker_submit: the queue is the worker's from here on. */
    method Submit()
      requires Valid()
      modifies this`nrel, this`workerNrel, this`workerBusy, this`others, workerRel
      ensures Valid() && View() == SubmitTo(old(View()))
    {
      hide Marked, ToSet;
      var i := 0;
      while i < nrel
        invariant 0 <= i <= nrel && Valid() && nrel == old(nrel)
        invariant workerRel[..i] == rel[..i] && rel[..nrel] == old(rel[..nrel])
        invariant pa[..nzc] == old(pa[..nzc]) && busy[..nzc] == old(busy[..nzc])
        invariant others == old(others) && workerNrel == old(workerNrel)
      {
        workerRel[i] := rel[i];
        i := i + 1;
      }
      workerNrel := nrel;
      nrel := 0;
      workerBusy := true;
      others := others.(w := others.w.(fi := None));
    }

    /** worker_main, its releases before the decode. */
    method WorkerReleases()
      requires Valid()
      modifies this`workerNrel, this`dec, this`fault
      ensures Valid() && View() == WorkerFlushAll(old(View()))
    {
      hide Marked, ToSet, WorkerFlushAll, Release;
      ghost var all := workerRel[..workerNrel];
      var i := 0;
      while i < workerNrel
        invariant 0 <= i <= workerNrel && Valid() && workerNrel == old(workerNrel)
        invariant WorkerFlushAll(WithRel(View(), all[i..])) == WorkerFlushAll(old(View()))
      {
        ghost var s := View();
        VdRelease(workerRel[i]);
        WorkerFlushStep(s, all[i..]);
        assert all[i..][1..] == all[i + 1..];
        i := i + 1;
      }
      workerNrel := 0;
      assert all[i..] == [];
      WorkerFlushNone(View());
    }

    /** zc_released, for the buffer at place k of the table. */
    method Released(k: nat)
      requires Valid() && k < nzc
      modifies this`nrel, this`fault, rel, busy
      ensures Valid() && View() == ZcReleased(old(View()), pa[k])
    {
      ghost var marks := busy[..nzc];
      MarkedAt(pa[..nzc], marks, k);
      if !busy[k] {
        fault := true;
        return;
      }
      busy[k] := false;
      assert busy[..nzc] == marks[k := false];
      Push(pa[k]);
    }

    /** The frame loop, before it presents the buffer. */
    method Mark(k: nat)
      requires Valid() && k < nzc
      modifies busy
      ensures Valid() && View() == old(View()).(busy := old(View()).busy + {pa[k]})
    {
      ghost var marks := busy[..nzc];
      MarkedAt(pa[..nzc], marks, k);
      busy[k] := true;
      assert busy[..nzc] == marks[k := true];
    }

    /** zc_get, its walk over the table: where the frame's buffer is, or the end. */
    method Place(f: Frame) returns (k: nat)
      requires Valid()
      ensures k <= nzc && (k < nzc ==> pa[k] == f) && (k == nzc ==> f !in pa[..nzc])
    {
      k := 0;
      while k < nzc
        invariant k <= nzc && forall i :: 0 <= i < k ==> pa[i] != f
      {
        if pa[k] == f { return; }
        k := k + 1;
      }
    }

    /** A new entry of the table. */
    method Add(f: Frame)
      requires Valid() && nzc < MAX_HELD && f !in pa[..nzc]
      modifies this`nzc, pa, busy
      ensures Valid() && nzc == old(nzc) + 1 && pa[nzc - 1] == f
      ensures View() == old(View()).(known := old(View()).known + {f})
    {
      hide Marked, ToSet;
      ghost var known, marks := pa[..nzc], busy[..nzc];
      pa[nzc], busy[nzc] := f, false;
      nzc := nzc + 1;
      assert pa[..nzc] == known + [f] && busy[..nzc] == marks + [false];
      TableGrows(known, marks, f);
    }

    /** zc_get: the buffer of the frame, exported on first sight. A buffer that is marked or whose
        layout is not the same as at its export, a full table, an export that fails or one the
        presenter does not take is refused. */
    method Get(f: Frame, sameLayout: bool, exported: bool, presentable: bool) returns (r: Option<nat>)
      requires Valid()
      modifies this`nzc, pa, busy
      ensures Valid()
      ensures r.Some? <==> f !in old(View()).busy
                           && (if f in old(View()).known then sameLayout
                               else |old(View()).known| < 32 && exported && presentable)
      ensures r.Some? ==> r.value < nzc && pa[r.value] == f && View() == old(View()).(known := old(View()).known + {f})
      ensures r.None? ==> View().(known := old(View()).known) == old(View())
    {
      ghost var known, marks := pa[..nzc], busy[..nzc];
      var k := Place(f);
      TableHas(known, marks, f, k);
      if k < nzc {
        return if busy[k] || !sameLayout then None else Some(k);
      }
      if nzc == MAX_HELD || !exported { return None; }
      Add(f);
      r := if presentable then Some(nzc - 1) else None;
    }
  }

  /** What the walk says about the table's sets. */
  lemma TableHas(pa: seq<Frame>, busy: seq<bool>, f: Frame, k: nat)
    requires |pa| == |busy| && Distinct(pa) && k <= |pa|
    requires k < |pa| ==> pa[k] == f
    requires k == |pa| ==> f !in pa
    ensures f in ToSet(pa) <==> k < |pa|
    ensures f in Marked(pa, busy) <==> k < |pa| && busy[k]
    ensures |ToSet(pa)| == |pa| && (k < |pa| ==> ToSet(pa) + {f} == ToSet(pa))
  {
    DistinctSize(pa);
    if k < |pa| { MarkedAt(pa, busy, k); }
  }

  function WithRel(s: State, rel: seq<Frame>): State { s.(w := s.w.(rel := rel)) }

  lemma FlushNone(s: State)
    requires s.rel == []
    ensures FlushAll(s) == s
  {
  }

  lemma WorkerFlushNone(s: State)
    requires s.w.rel == []
    ensures WorkerFlushAll(s) == s
  {
  }

  lemma FlushStep(s: State, q: seq<Frame>)
    requires |q| > 0
    ensures FlushAll(s.(rel := q)) == FlushAll(Release(s, q[0]).(rel := q[1..]))
  {
    assert FlushOne(s.(rel := q)) == Release(s, q[0]).(rel := q[1..]);
  }

  lemma WorkerFlushStep(s: State, q: seq<Frame>)
    requires |q| > 0
    ensures WorkerFlushAll(WithRel(s, q)) == WorkerFlushAll(WithRel(Release(s, q[0]), q[1..]))
  {
    assert WorkerFlushOne(WithRel(s, q)) == WithRel(Release(s, q[0]), q[1..]);
  }

  /** One place of the table is one mark. */
  lemma MarkedAt(pa: seq<Frame>, busy: seq<bool>, k: nat)
    requires |pa| == |busy| && Distinct(pa) && k < |pa|
    ensures pa[k] in Marked(pa, busy) <==> busy[k]
    ensures Marked(pa, busy[k := false]) == Marked(pa, busy) - {pa[k]}
    ensures Marked(pa, busy[k := true]) == Marked(pa, busy) + {pa[k]}
  {
  }

  lemma TableGrows(pa: seq<Frame>, busy: seq<bool>, f: Frame)
    requires |pa| == |busy| && Distinct(pa) && f !in pa
    ensures Distinct(pa + [f]) && ToSet(pa + [f]) == ToSet(pa) + {f}
    ensures Marked(pa + [f], busy + [false]) == Marked(pa, busy)
  {
    forall x | x in Marked(pa, busy) ensures x in Marked(pa + [f], busy + [false]) {
      var i :| 0 <= i < |pa| && busy[i] && pa[i] == x;
      assert (busy + [false])[i] && (pa + [f])[i] == x;
    }
  }
}
