/** Read-only cached maps of one ION buffer on a non-coherent device: the device writes memory
    behind the cache, the cache may fill and drop clean lines whenever it likes, and SYNC START
    invalidates only while cached_maps is not zero. */
module CachedMap {
  import opened Wrappers

  type Contents = int -> int       // what each line of the buffer holds

  /** A clean cache line and the time it was filled. */
  datatype Line = Line(value: int, filled: nat)

  /** A cached VMA: `ready` once its mmap has returned; `since` is the time of its reader's latest
      SYNC START, or of the mmap; `starting` while a START is between its count and its return. */
  datatype Vma = Vma(ready: bool, since: nat, starting: Start)
  datatype Start = No | Maintains | Skips

  /** A read through a cached map, when it was made and the reader's latest START before it. */
  datatype Seen = Seen(line: int, value: int, since: nat, at: nat)

  /** `past` is the memory at every moment so far, the last entry the current one. */
  datatype State = State(
    past: seq<Contents>, cache: map<int, Line>, cachedMaps: int, cachedMmap: bool,
    vmas: map<nat, Vma>, log: seq<Seen>)

  function Now(s: State): int { |s.past| - 1 }

  datatype Step =
    | Write(line: int, value: int)  // the device, or the CPU through an uncached map
    | Fill(line: int)               // speculation, or the linear alias
    | Evict(line: int)
    | Toggle(on: bool)              // the cached_mmap parameter
    | MmapCount(v: nat)             // soph_ion_mmap of a read-only map: pages in, count up
    | MmapSync(v: nat)              //   ... lines dropped, mmap returns
    | Split(v: nat, w: nat)         // vm_open: a split or a fork
    | Unmap(v: nat)                 // vm_close
    | StartCount(v: nat)            // soph_ion_begin_cpu_access: the count is read
    | StartSync(v: nat)             //   ... lines dropped or not, START returns
    | Read(v: nat, line: int)

  predicate Enabled(s: State, a: Step) {
    match a
    case Write(_, _) => true
    case Fill(_) => true
    case Evict(_) => true
    case Toggle(_) => true
    case MmapCount(v) => s.cachedMmap && v !in s.vmas
    case MmapSync(v) => v in s.vmas && !s.vmas[v].ready
    case Split(v, w) => v in s.vmas && s.vmas[v].ready && w !in s.vmas
    case Unmap(v) => v in s.vmas && s.vmas[v].ready
    case StartCount(v) => v in s.vmas && s.vmas[v].ready && s.vmas[v].starting.No?
    case StartSync(v) => v in s.vmas && s.vmas[v].ready && !s.vmas[v].starting.No?
    case Read(v, _) => v in s.vmas && s.vmas[v].ready && s.vmas[v].starting.No?
  }

  function Filled(s: State, line: int): State
    requires |s.past| > 0
  {
    if line in s.cache then s else s.(cache := s.cache[line := Line(s.past[Now(s)](line), Now(s))])
  }

  function Next(s: State, a: Step): State
    requires |s.past| > 0 && Enabled(s, a)
  {
    match a
    case Write(line, value) =>
      var m := s.past[Now(s)];
      s.(past := s.past + [(x: int) => if x == line then value else m(x)])
    case Fill(line) => Filled(s, line)
    case Evict(line) => s.(cache := s.cache - {line})
    case Toggle(on) => s.(cachedMmap := on)
    case MmapCount(v) => s.(cachedMaps := s.cachedMaps + 1, vmas := s.vmas[v := Vma(false, 0, No)])
    case MmapSync(v) => s.(cache := map[], vmas := s.vmas[v := Vma(true, Now(s), No)])
    case Split(v, w) => s.(cachedMaps := s.cachedMaps + 1, vmas := s.vmas[w := s.vmas[v].(starting := No)])
    case Unmap(v) => s.(cachedMaps := s.cachedMaps - 1, vmas := s.vmas - {v})
    case StartCount(v) =>
      s.(vmas := s.vmas[v := s.vmas[v].(starting := if s.cachedMaps != 0 then Maintains else Skips)])
    case StartSync(v) =>
      s.(cache := if s.vmas[v].starting.Maintains? then map[] else s.cache,
         vmas := s.vmas[v := Vma(true, Now(s), No)])
    case Read(v, line) =>
      var t := Filled(s, line);
      t.(log := s.log + [Seen(line, t.cache[line].value, s.vmas[v].since, Now(s))])
  }

  ghost predicate Run(s: State, steps: seq<Step>, t: State)
    decreases steps
  {
    if |steps| == 0 then s == t
    else |s.past| > 0 && Enabled(s, steps[0]) && Run(Next(s, steps[0]), steps[1..], t)
  }

  /** A new buffer: any memory, any lines left behind by its last use, no maps. */
  predicate Init(s: State) {
    |s.past| > 0 && s.cachedMaps == 0 && s.vmas == map[] && s.log == [] && LinesTrue(s)
  }

  // ---------------------------------------------------------------- invariant

  /** A line is what memory held when it was filled. */
  predicate LinesTrue(s: State) {
    forall l :: l in s.cache ==> s.cache[l].filled < |s.past| && s.past[s.cache[l].filled](l) == s.cache[l].value
  }

  /** No line is older than any reader's latest START, and no START was skipped. */
  predicate LinesFresh(s: State) {
    forall v :: v in s.vmas && s.vmas[v].ready ==>
      && s.vmas[v].since < |s.past| && !s.vmas[v].starting.Skips?
      && forall l :: l in s.cache ==> s.vmas[v].since <= s.cache[l].filled
  }

  /** The memory held the value at some moment from the reader's latest START to the read. */
  ghost predicate HeldSince(past: seq<Contents>, r: Seen) {
    exists t :: r.since <= t <= r.at && t < |past| && past[t](r.line) == r.value
  }

  ghost predicate ReadsTrue(s: State) {
    forall i :: 0 <= i < |s.log| ==> s.log[i].at < |s.past| && HeldSince(s.past, s.log[i])
  }

  ghost predicate Inv(s: State) {
    |s.past| > 0 && s.cachedMaps == |s.vmas| && LinesTrue(s) && LinesFresh(s) && ReadsTrue(s)
  }

  lemma CountStays(s: State, a: Step)
    requires Inv(s) && Enabled(s, a)
    ensures Next(s, a).cachedMaps == |Next(s, a).vmas|
  {
  }

  lemma LinesStayTrue(s: State, a: Step)
    requires Inv(s) && Enabled(s, a)
    ensures LinesTrue(Next(s, a))
  {
    hide LinesFresh, ReadsTrue;
  }

  /** A live map keeps the count above zero, so its START does drop the lines. */
  lemma LinesStayFresh(s: State, a: Step)
    requires Inv(s) && Enabled(s, a)
    ensures LinesFresh(Next(s, a))
  {
    hide ReadsTrue;
    if a.StartCount? { assert a.v in s.vmas.Keys; }
  }

  lemma ReadsStayTrue(s: State, a: Step)
    requires Inv(s) && Enabled(s, a)
    ensures ReadsTrue(Next(s, a))
  {
    var t := Next(s, a);
    forall i | 0 <= i < |t.log| ensures t.log[i].at < |t.past| && HeldSince(t.past, t.log[i]) {
      if i < |s.log| {
        assert t.log[i] == s.log[i];
        StillHeld(s, t, s.log[i]);
      } else {
        var f := t.cache[a.line].filled;
        assert t.log[i].since <= f <= t.log[i].at && t.past[f](t.log[i].line) == t.log[i].value;
      }
    }
  }

  lemma StillHeld(s: State, t: State, r: Seen)
    requires HeldSince(s.past, r) && s.past <= t.past
    ensures HeldSince(t.past, r)
  {
  }

  lemma {:induction false} RunInv(s: State, steps: seq<Step>, t: State)
    requires Inv(s) && Run(s, steps, t)
    ensures Inv(t)
    decreases steps
  {
    hide Enabled, Next, LinesTrue, LinesFresh, ReadsTrue;
    if |steps| != 0 {
      StepInv(s, steps[0]);
      RunInv(Next(s, steps[0]), steps[1..], t);
    }
  }

  lemma PastStays(s: State, a: Step)
    requires |s.past| > 0 && Enabled(s, a)
    ensures s.past <= Next(s, a).past
  {
  }

  // ---------------------------------------------------------------- what it means

  /** In any run of device writes, fills, maps, splits, unmaps, STARTs and cached_mmap changes, a
      read through a cached map sees something the memory held at or after its reader's latest
      START, or its mmap. */
  lemma ReadersSeeSinceStart(s: State, steps: seq<Step>, t: State, i: nat)
    requires Init(s) && Run(s, steps, t) && i < |t.log|
    ensures HeldSince(t.past, t.log[i])
  {
    hide Run, LinesTrue, LinesFresh;
    InitInv(s);
    RunInv(s, steps, t);
  }

  lemma InitInv(s: State)
    requires Init(s)
    ensures Inv(s)
  {
  }

  /** cached_maps is the number of live cached VMAs. */
  lemma CachedMapsCounts(s: State, steps: seq<Step>, t: State)
    requires Init(s) && Run(s, steps, t)
    ensures t.cachedMaps == |t.vmas|
  {
    hide Run, LinesTrue, LinesFresh, ReadsTrue;
    InitInv(s);
    RunInv(s, steps, t);
  }

  /** If nothing wrote a line between the latest START and the read, the read is exact. */
  lemma QuietReadIsExact(s: State, steps: seq<Step>, t: State, i: nat)
    requires Init(s) && Run(s, steps, t) && i < |t.log|
    requires t.log[i].at < |t.past|
    requires forall m :: t.log[i].since <= m <= t.log[i].at ==> t.past[m](t.log[i].line) == t.past[t.log[i].at](t.log[i].line)
    ensures t.log[i].value == t.past[t.log[i].at](t.log[i].line)
  {
    hide Run;
    ReadersSeeSinceStart(s, steps, t, i);
  }

  /** The first map of a buffer. */
  function Mapped(s: State): State {
    s.(cachedMaps := 1, vmas := map[0 := Vma(true, if |s.past| > 0 then Now(s) else 0, No)], cache := map[])
  }

  lemma Maps(s: State, steps: seq<Step>, t: State)
    requires Init(s) && s.cachedMmap && Run(Mapped(s), steps, t)
    ensures Run(s, [MmapCount(0)] + ([MmapSync(0)] + steps), t)
  {
    hide Run, LinesTrue;
    var s1 := Next(s, MmapCount(0));
    assert s1.vmas == map[0 := Vma(false, 0, No)];
    assert Next(s1, MmapSync(0)) == Mapped(s);
    RunCons(s1, MmapSync(0), steps, t);
    RunCons(s, MmapCount(0), [MmapSync(0)] + steps, t);
  }

  /** Without a START after the device's write, a reader does see stale data. */
  lemma UnbracketedReadIsStale(s: State, value: int)
    requires Init(s) && s.cachedMmap && value != s.past[Now(s)](0)
    ensures exists steps, t ::
              && Run(s, steps, t) && |t.log| == 1 && |t.past| == |s.past| + 1
              && t.past[Now(t)](0) == value && t.log[0].value == s.past[Now(s)](0)
  {
    hide Run, LinesTrue;
    var s2 := Mapped(s);
    var s3 := Next(s2, Fill(0));
    var s4 := Next(s3, Write(0, value));
    var t := Next(s4, Read(0, 0));
    RunNone(t);
    RunCons(s4, Read(0, 0), [], t);
    RunCons(s3, Write(0, value), [Read(0, 0)] + [], t);
    RunCons(s2, Fill(0), [Write(0, value)] + ([Read(0, 0)] + []), t);
    Maps(s, [Fill(0)] + ([Write(0, value)] + ([Read(0, 0)] + [])), t);
  }

  lemma RunNone(s: State)
    ensures Run(s, [], s)
  {
  }

  lemma RunCons(s: State, a: Step, steps: seq<Step>, t: State)
    requires |s.past| > 0 && Enabled(s, a) && Run(Next(s, a), steps, t)
    ensures Run(s, [a] + steps, t)
  {
  }

  // ---------------------------------------------------------------- the shim's own functions

  /** One buffer with its count, its maps and the lines the cache holds of it. */
  class Buffer {
    var past: seq<Contents>
    var cache: map<int, Line>
    var cachedMaps: int
    var cachedMmap: bool
    var vmas: map<nat, Vma>
    ghost var log: seq<Seen>

    ghost function View(): State
      reads this
    {
      State(past, cache, cachedMaps, cachedMmap, vmas, log)
    }

    /** dma_sync_single_for_cpu */
    method DropLines()
      modifies this`cache
      ensures cache == map[]
    {
      cache := map[];
    }

    /** soph_ion_mmap. A cached map is counted and starts with no stale line; a writable one, or
        any while cached_mmap is off, is uncached and neither counted nor maintained. */
    method Mmap(v: nat, writable: bool, remapped: bool) returns (ok: bool, cached: bool)
      requires Inv(View()) && v !in vmas
      modifies this`cachedMaps, this`vmas, this`cache
      ensures Inv(View())
      ensures cached == (ok && old(cachedMmap) && !writable)
      ensures cached ==> vmas == old(vmas)[v := Vma(true, |past| - 1, No)] && cachedMaps == old(cachedMaps) + 1
      ensures cached ==> Run(old(View()), [MmapCount(v)] + ([MmapSync(v)] + []), View())
      ensures !cached ==> View() == old(View())
    {
      hide LinesTrue, LinesFresh, ReadsTrue, Run;
      ghost var s := View();
      ok, cached := true, false;
      if cachedMmap && !writable {
        if !remapped { return false, false; }
        vmas := vmas[v := Vma(false, 0, No)];
        cachedMaps := cachedMaps + 1;
        ghost var s1 := View();
        DropLines();
        vmas := vmas[v := Vma(true, |past| - 1, No)];
        cached := true;
        RunNone(View());
        RunCons(s1, MmapSync(v), [], View());
        RunCons(s, MmapCount(v), [MmapSync(v)] + [], View());
        RunInv(s, [MmapCount(v)] + ([MmapSync(v)] + []), View());
      }
    }

    /** soph_ion_vm_open */
    method VmOpen(v: nat, w: nat)
      requires Inv(View()) && Enabled(View(), Split(v, w))
      modifies this`cachedMaps, this`vmas
      ensures Inv(View()) && View() == Next(old(View()), Split(v, w)) && cachedMaps == old(cachedMaps) + 1
    {
      hide LinesTrue, LinesFresh, ReadsTrue, Run;
      ghost var s := View();
      vmas := vmas[w := vmas[v].(starting := No)];
      cachedMaps := cachedMaps + 1;
      StepInv(s, Split(v, w));
    }

    /** soph_ion_vm_close */
    method VmClose(v: nat)
      requires Inv(View()) && Enabled(View(), Unmap(v))
      modifies this`cachedMaps, this`vmas
      ensures Inv(View()) && View() == Next(old(View()), Unmap(v)) && (cachedMaps == 0 <==> vmas == map[])
    {
      hide LinesTrue, LinesFresh, ReadsTrue, Run;
      ghost var s := View();
      vmas := vmas - {v};
      cachedMaps := cachedMaps - 1;
      StepInv(s, Unmap(v));
      assert |vmas| == 0 <==> vmas == map[];
    }

    /** soph_ion_begin_cpu_access: while the buffer has a cached map its lines are dropped, and
        without one nothing is done. */
    method SyncStart()
      requires Inv(View())
      modifies this`cache
      ensures cache == if old(vmas) == map[] then old(cache) else map[]
    {
      hide LinesTrue, LinesFresh, ReadsTrue;
      assert |vmas| == 0 <==> vmas == map[];
      if cachedMaps != 0 { DropLines(); }
    }

    /** A START by the reader of map v: every stale line is gone. */
    method BeginCpuAccess(v: nat)
      requires Inv(View()) && Enabled(View(), StartCount(v))
      modifies this`cache, this`vmas
      ensures Inv(View()) && cache == map[]
      ensures vmas == old(vmas)[v := Vma(true, |past| - 1, No)]
    {
      hide LinesTrue, LinesFresh, ReadsTrue, Next, Run;
      ghost var s := View();
      StartDrops(s, v);
      SyncStart();
      vmas := vmas[v := Vma(true, |past| - 1, No)];
    }

    /** cached_mmap_set: what does not read as a boolean is refused, and so is turning it on where
        the device is coherent. */
    method CachedMmapSet(on: Option<bool>, coherent: bool) returns (ok: bool)
      requires Inv(View())
      modifies this`cachedMmap
      ensures ok <==> on.Some? && !(coherent && on == Some(true))
      ensures ok ==> cachedMmap == on.value && View() == Next(old(View()), Toggle(on.value))
      ensures !ok ==> View() == old(View())
      ensures Inv(View())
    {
      hide LinesTrue, LinesFresh, ReadsTrue;
      if on.None? || (on.value && coherent) { return false; }
      ghost var s := View();
      cachedMmap := on.value;
      StepInv(s, Toggle(on.value));
      ok := true;
    }
  }

  /** The two steps of a START: there is a map, so the lines go. */
  lemma StartDrops(s: State, v: nat)
    requires Inv(s) && Enabled(s, StartCount(v))
    ensures var t := Next(s, StartCount(v));
            && Enabled(t, StartSync(v))
            && Next(t, StartSync(v)) == s.(cache := map[], vmas := s.vmas[v := Vma(true, |s.past| - 1, No)])
    ensures s.vmas != map[] && Inv(s.(cache := map[], vmas := s.vmas[v := Vma(true, |s.past| - 1, No)]))
  {
    hide LinesTrue, LinesFresh, ReadsTrue;
    var t := Next(s, StartCount(v));
    assert v in s.vmas.Keys;
    assert t.vmas[v].starting.Maintains?;
    assert Next(t, StartSync(v)).vmas == s.vmas[v := Vma(true, |s.past| - 1, No)];
    StepInv(s, StartCount(v));
    StepInv(t, StartSync(v));
  }

  lemma StepInv(s: State, a: Step)
    requires Inv(s) && Enabled(s, a)
    ensures Inv(Next(s, a))
  {
    hide Enabled, Next, LinesTrue, LinesFresh, ReadsTrue;
    CountStays(s, a);
    LinesStayTrue(s, a);
    LinesStayFresh(s, a);
    ReadsStayTrue(s, a);
    PastStays(s, a);
  }
}
