/** The shim's own functions, each run without interruption: its list, its counter and its
    reference counts are updated in place, and each call is a run of the shim's steps. */
module IonDevice {
  import opened Wrappers
  import opened IonShim

  /** Memory that overlaps none handed out. */
  predicate FreeMemory(bufs: seq<Buf>, size: nat, base: nat) {
    forall j :: 0 <= j < |bufs| && Held(bufs[j]) ==> Apart(Fresh(size).(base := base), bufs[j])
  }

  function AllocSteps(s: State, len: nat, memory: Option<nat>): seq<Step> {
    var id := |s.bufs|;
    if !Passes(s, len) then [Check(len)] + []
    else if memory.None? then [Check(len)] + ([DmaFail(id)] + [])
    else [Check(len)] + ([DmaAlloc(id, memory.value)] + ([Commit(id)] + []))
  }

  function AfterAlloc(s: State, len: nat, memory: Option<nat>): State {
    var size := PageAlign(len);
    if !Passes(s, len) then s
    else if memory.None? then s.(bufs := s.bufs + [Fresh(size).(phase := Failed)])
    else State(s.bufs + [Buf(size, memory.value, Live, 1, Holds, 0, 0, 0)], [|s.bufs|] + s.list, U64(s.inUse + size))
  }

  lemma RunCons(s: State, a: Step, steps: seq<Step>, t: State)
    requires Listed(s) && Enabled(s, a) && Run(Next(s, a), steps, t)
    ensures Run(s, [a] + steps, t)
  {
  }

  lemma AllocRuns(s: State, len: nat, memory: Option<nat>)
    requires Inv(s) && len < WORD && (memory.Some? ==> FreeMemory(s.bufs, PageAlign(len), memory.value))
    ensures Run(s, AllocSteps(s, len, memory), AfterAlloc(s, len, memory)) && Inv(AfterAlloc(s, len, memory))
  {
    hide Inv, Run, PageAlign, FreeMemory, Listed, U64, Next;
    if !Passes(s, len) { AllocRefused(s, len, memory); }
    else if memory.None? { AllocFails(s, len); }
    else { AllocGets(s, len, memory.value); }
  }

  lemma AllocRefused(s: State, len: nat, memory: Option<nat>)
    requires Inv(s) && len < WORD && !Passes(s, len)
    ensures Run(s, AllocSteps(s, len, memory), s)
  {
  }

  lemma AllocFails(s: State, len: nat)
    requires Inv(s) && len < WORD && Passes(s, len)
    ensures Run(s, AllocSteps(s, len, None), AfterAlloc(s, len, None)) && Inv(AfterAlloc(s, len, None))
  {
    hide Inv, Run, PageAlign, Listed, U64, Passes;
    var t := AfterAlloc(s, len, None);
    var id := |s.bufs|;
    InUseFits(s);
    var s1 := StepKeeps(s, Check(len));
    var s2 := StepKeeps(s1, DmaFail(id));
    assert s2.bufs == t.bufs;
    RunNone(t);
    RunCons(s1, DmaFail(id), [], t);
    RunCons(s, Check(len), [DmaFail(id)] + [], t);
  }

  lemma AllocGets(s: State, len: nat, base: nat)
    requires Inv(s) && len < WORD && Passes(s, len) && FreeMemory(s.bufs, PageAlign(len), base)
    ensures Run(s, AllocSteps(s, len, Some(base)), AfterAlloc(s, len, Some(base))) && Inv(AfterAlloc(s, len, Some(base)))
  {
    hide Inv, Run, PageAlign, Apart, Listed, U64, Passes;
    var t := AfterAlloc(s, len, Some(base));
    var id := |s.bufs|;
    InUseFits(s);
    var s1 := StepKeeps(s, Check(len));
    var a := DmaAlloc(id, base);
    var s2 := StepKeeps(s1, a);
    assert s2.bufs == s.bufs + [Buf(PageAlign(len), base, Allocated, 1, Holds, 0, 0, 0)];
    var s3 := StepKeeps(s2, Commit(id));
    assert s3.bufs == t.bufs;
    RunNone(t);
    RunCons(s2, Commit(id), [], t);
    RunCons(s1, a, [Commit(id)] + [], t);
    RunCons(s, Check(len), [a] + ([Commit(id)] + []), t);
  }

  lemma InUseFits(s: State)
    requires Inv(s)
    ensures s.inUse < WORD
  {
  }

  lemma RunNone(s: State)
    ensures Run(s, [], s)
  {
  }

  lemma StepKeeps(s: State, a: Step) returns (t: State)
    requires Inv(s) && Enabled(s, a)
    ensures Listed(s) && t == Next(s, a) && Inv(t) && Listed(t)
  {
    StepInv(s, a);
    t := Next(s, a);
  }

  /** The release that follows a put of the last reference. */
  lemma ReleaseKeeps(s: State, id: nat) returns (t: State)
    requires Inv(s) && id < |s.bufs|
    ensures Inv(t)
    ensures var b := s.bufs[id];
            t == if b.phase.Dropped?
                 then State(s.bufs[id := b.(phase := Gone, returned := b.returned + 1)], s.list, U64(s.inUse - b.size))
                 else s
  {
    hide Sum, NoDup, AllCounted, MemoryApart, Apart;
    t := s;
    if s.bufs[id].phase.Dropped? {
      var s1 := StepKeeps(s, ReleaseMemory(id));
      t := StepKeeps(s1, ReleaseBudget(id));
      var b := s.bufs[id];
      assert t.bufs == s.bufs[id := b.(phase := Gone, returned := b.returned + 1)];
    }
  }

  lemma FindStep(bufs: seq<Buf>, list: seq<nat>, i: nat, pa: nat)
    requires i < |list| && Listed(State(bufs, list[i..], 0))
    ensures list[i] < |bufs| && Listed(State(bufs, list[i + 1..], 0))
    ensures Find(bufs, list[i..], pa) ==
            if Contains(bufs[list[i]], pa) then Some(list[i]) else Find(bufs, list[i + 1..], pa)
  {
    var rest := list[i..];
    assert rest[0] in rest;
    assert rest[1..] == list[i + 1..];
    forall x | x in rest[1..] ensures x in rest { }
  }

  /** What a lookup finds has its owner's reference. */
  lemma Exportable(s: State, pa: nat)
    requires Inv(s) && Find(s.bufs, s.list, pa).Some?
    ensures var id := Find(s.bufs, s.list, pa).value;
            id < |s.bufs| && s.bufs[id].refs > 0 && Contains(s.bufs[id], pa)
  {
  }

  lemma FindEnd(bufs: seq<Buf>, list: seq<nat>, pa: nat)
    requires list == []
    ensures Find(bufs, list, pa) == None
  {
  }

  class Shim {
    var bufs: seq<Buf>
    var list: seq<nat>
    var inUse: nat

    function View(): State
      reads this
    {
      State(bufs, list, inUse)
    }

    constructor ()
      ensures View() == Empty
    {
      bufs, list, inUse := [], [], 0;
    }

    /** cvi_ion_alloc_nofd. `memory` is what dma_alloc_coherent finds. */
    method AllocNofd(len: nat, memory: Option<nat>) returns (r: Option<nat>)
      requires Inv(View()) && len < WORD
      requires memory.Some? ==> FreeMemory(bufs, PageAlign(len), memory.value)
      modifies this
      ensures r.Some? <==> Passes(old(View()), len) && memory.Some?
      ensures r.Some? ==> r.value == old(|bufs|) && list == [r.value] + old(list)
      ensures r.Some? ==> bufs == old(bufs) + [Buf(PageAlign(len), memory.value, Live, 1, Holds, 0, 0, 0)]
      ensures r.Some? ==> inUse == U64(old(inUse) + PageAlign(len))
      ensures r.Some? ==> 0 < len && bufs[r.value].size % 4096 == 0
      ensures r.Some? && len + 4095 < WORD ==> len <= bufs[r.value].size < len + 4096
      ensures r.Some? && len + 4095 >= WORD ==> bufs[r.value].size == 0
      ensures r.None? ==> list == old(list) && inUse == old(inUse)
      ensures Run(old(View()), AllocSteps(old(View()), len, memory), View()) && Inv(View())
    {
      hide Inv, Run, AllocSteps, PageAlign, U64, FreeMemory;
      ghost var s := View();
      AllocRuns(s, len, memory);
      PageAlignIs(len);
      r := None;
      if len != 0 {
        var size := PageAlign(len);
        var id := |bufs|;
        if U64(inUse + size) <= BUDGET {
          if memory.None? {
            bufs := bufs + [Fresh(size).(phase := Failed)];
          } else {
            bufs := bufs + [Buf(size, memory.value, Live, 1, Holds, 0, 0, 0)];
            list := [id] + list;
            inUse := U64(inUse + size);
            r := Some(id);
          }
        }
      }
      assert View() == AfterAlloc(s, len, memory);
    }

    /** ion_buf_get, its walk over the list. */
    method FirstContaining(pa: nat) returns (r: Option<nat>)
      requires Listed(View())
      ensures r == Find(bufs, list, pa)
    {
      hide Contains, Find;
      var i := 0;
      while i < |list|
        invariant 0 <= i <= |list|
        invariant Listed(State(bufs, list[i..], 0))
        invariant Find(bufs, list, pa) == Find(bufs, list[i..], pa)
      {
        FindStep(bufs, list, i, pa);
        if Contains(bufs[list[i]], pa) { return Some(list[i]); }
        i := i + 1;
      }
      FindEnd(bufs, list[i..], pa);
      r := None;
    }

    /** ion_buf_get: a reference on the first listed allocation that contains pa. */
    method BufGet(pa: nat) returns (r: Option<nat>)
      requires Inv(View())
      modifies this`bufs
      ensures Listed(old(View())) && r == Find(old(bufs), old(list), pa)
      ensures View() == Next(old(View()), Lookup(pa))
    {
      hide AllCounted, MemoryApart, Sum, U64, NoDup, Contains, Find;
      r := FirstContaining(pa);
      if r.Some? {
        var b := bufs[r.value];
        bufs := bufs[r.value := b.(refs := b.refs + 1, exporting := b.exporting + 1)];
      }
    }

    /** kref_put with ion_buf_release: one reference less, and the last one returns the memory once
        and gives up its budget. */
    method KrefPut(id: nat)
      requires id < |bufs|
      modifies this`bufs, this`inUse
      ensures |bufs| == old(|bufs|) && forall j :: 0 <= j < |bufs| && j != id ==> bufs[j] == old(bufs[j])
      ensures bufs[id].refs == old(bufs[id].refs) - 1
      ensures bufs[id].refs == 0 ==>
                && bufs[id].phase == Gone && bufs[id].returned == old(bufs[id].returned) + 1
                && inUse == U64(old(inUse) - old(bufs[id].size))
      ensures bufs[id].refs != 0 ==>
                bufs[id].phase == old(bufs[id].phase) && bufs[id].returned == old(bufs[id].returned) && inUse == old(inUse)
      ensures bufs[id] == old(bufs[id]).(refs := bufs[id].refs, phase := bufs[id].phase, returned := bufs[id].returned)
    {
      var b := bufs[id];
      if b.refs == 1 {
        bufs := bufs[id := b.(refs := 0, phase := Gone, returned := b.returned + 1)];
        inUse := U64(inUse - b.size);
      } else {
        bufs := bufs[id := b.(refs := b.refs - 1)];
      }
    }

    /** cvi_ion_free_nofd: off the list at once; the memory goes back now if no dma-buf is open,
        else when the last one closes. */
    method FreeNofd(id: nat)
      requires Inv(View()) && id in list
      modifies this
      ensures Inv(View()) && id !in list && |bufs| == old(|bufs|) && id < |bufs|
      ensures bufs[id].returned == (if old(bufs[id].exporting + bufs[id].open) == 0 then 1 else 0)
      ensures forall j :: 0 <= j < |bufs| && j != id ==> bufs[j] == old(bufs[j]) && (j in list <==> j in old(list))
      ensures inUse == if bufs[id].returned == 1 then U64(old(inUse) - old(bufs[id].size)) else old(inUse)
    {
      hide MemoryApart, Sum, U64, NoDup;
      ghost var s := View();
      InvCounted(s, id);
      assert OnList(s.bufs[id]);
      ghost var s1 := StepKeeps(s, Unlist(id));
      ghost var s2 := StepKeeps(s1, OwnerPut(id));
      ghost var s3 := ReleaseKeeps(s2, id);
      list := Remove(list, id);
      bufs := bufs[id := bufs[id].(owner := Done)];
      KrefPut(id);
      assert View() == s3 by { assert bufs == s3.bufs; }
    }

    /** soph_ion_export. The dma-buf, the file descriptor or the copy to the caller may fail; then
        the reference goes back and nothing has changed. */
    method Export(pa: nat, made: bool, descriptor: bool, copied: bool) returns (r: Option<(nat, nat)>)
      requires Inv(View())
      modifies this
      ensures Listed(old(View())) && Inv(View())
      ensures r.None? ==> View() == old(View())
      ensures var found := Find(old(bufs), old(list), pa);
              && (r.Some? <==> found.Some? && made && descriptor && copied)
              && (r.Some? ==>
                    var b := old(bufs)[found.value];
                    && r.value == (pa - b.base, b.size) && 0 <= pa - b.base < b.size
                    && View() == old(View()).(bufs := old(bufs)[found.value := b.(refs := b.refs + 1, open := b.open + 1)]))
    {
      hide MemoryApart, Sum, U64, NoDup, AllCounted, ListOk, Find;
      ghost var s := View();
      var found := BufGet(pa);
      ghost var s1 := StepKeeps(s, Lookup(pa));
      if found.None? { return None; }
      var id := found.value;
      ghost var b := s.bufs[id];
      Exportable(s, pa);
      assert bufs == s.bufs[id := b.(refs := b.refs + 1, exporting := b.exporting + 1)];
      if !made {
        bufs := bufs[id := bufs[id].(exporting := bufs[id].exporting - 1)];
        KrefPut(id);
        assert bufs == s.bufs;
        return None;
      }
      ghost var s2 := StepKeeps(s1, ExportOk(id));
      bufs := bufs[id := bufs[id].(exporting := bufs[id].exporting - 1, open := bufs[id].open + 1)];
      assert bufs == s.bufs[id := b.(refs := b.refs + 1, open := b.open + 1)] == s2.bufs;
      if !descriptor || !copied {
        bufs := bufs[id := bufs[id].(open := bufs[id].open - 1)];
        KrefPut(id);
        assert bufs == s.bufs;
        return None;
      }
      r := Some((pa - bufs[id].base, bufs[id].size));
    }

    /** soph_ion_dmabuf_release */
    method DmabufRelease(id: nat)
      requires Inv(View()) && id < |bufs| && bufs[id].open > 0
      modifies this`bufs, this`inUse
      ensures Inv(View()) && |bufs| == old(|bufs|) && bufs[id].open == old(bufs[id].open) - 1
      ensures bufs[id].returned == (if Unreferenced(bufs[id]) then 1 else 0)
      ensures forall j :: 0 <= j < |bufs| && j != id ==> bufs[j] == old(bufs[j])
    {
      hide MemoryApart, Sum, U64, NoDup, ListOk;
      ghost var s := View();
      InvCounted(s, id);
      ghost var s1 := StepKeeps(s, Close(id));
      ghost var s2 := ReleaseKeeps(s1, id);
      bufs := bufs[id := bufs[id].(open := bufs[id].open - 1)];
      KrefPut(id);
      assert View() == s2 by { assert bufs == s2.bufs; }
    }
  }
}
