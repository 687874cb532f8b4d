/** The ION shim's allocations: a live list, reference counts shared with dma-bufs, and a byte
    budget that is checked and taken in two critical sections. One critical section, one atomic
    count or one foreign call is one step; steps of any number of threads interleave freely. */
module IonShim {
  import opened Wrappers
  import Bits

  const PAGE := 4096
  const BUDGET := 96 * 0x10_0000
  const WORD := 0x1_0000_0000_0000_0000

  function U64(v: int): (r: nat)
    ensures r < WORD && (0 <= v < WORD ==> r == v)
  {
    v % WORD
  }

  /** PAGE_ALIGN on 64 bits. */
  function PageAlign(len: nat): nat { U64(len + PAGE - 1) / PAGE * PAGE }

  /** Rounded up to whole pages of 4096 bytes, by less than one; the last lengths of the 64-bit range
      wrap to nothing. */
  lemma PageAlignIs(len: nat)
    requires len < WORD
    ensures PageAlign(len) % 4096 == 0
    ensures len + 4095 < WORD ==> len <= PageAlign(len) < len + 4096
    ensures len + 4095 >= WORD ==> PageAlign(len) == 0
  {
  }

  /** Where an allocation is: past the budget check; its memory allocated but not counted; in use;
      without references; its memory returned but still counted; gone. Or its memory could not be
      had. */
  datatype Phase = Checked | Allocated | Live | Dropped | Returned | Gone | Failed

  /** The allocating side's reference: held, off the list and about to be put, put. */
  datatype Owner = Holds | Freeing | Done

  /** `exporting` exports hold a reference of their own, `open` dma-bufs one each; `returned`
      counts the calls of dma_free_coherent(). */
  datatype Buf = Buf(size: nat, base: nat, phase: Phase, refs: int, owner: Owner,
                     exporting: nat, open: nat, returned: nat)

  /** ion_bufs, most recent first, and ion_in_use. Every allocation ever asked for stays in `bufs`. */
  datatype State = State(bufs: seq<Buf>, list: seq<nat>, inUse: nat)

  const Empty := State([], [], 0)

  predicate Held(b: Buf) { b.phase.Allocated? || b.phase.Live? || b.phase.Dropped? }

  predicate Contains(b: Buf, pa: nat) { b.base <= pa && pa - b.base < b.size }

  predicate Apart(b: Buf, c: Buf) { b.base + b.size <= c.base || c.base + c.size <= b.base }

  // ---------------------------------------------------------------- steps

  datatype Step =
    | Check(len: nat)              // cvi_ion_alloc_nofd: the first critical section
    | DmaAlloc(id: nat, base: nat) // dma_alloc_coherent, kref_init
    | DmaFail(id: nat)
    | Commit(id: nat)              // the second critical section
    | Unlist(id: nat)              // cvi_ion_free_nofd
    | OwnerPut(id: nat)
    | Lookup(pa: nat)              // ion_buf_get
    | ExportFail(id: nat)          // dma_buf_export failed: put
    | ExportOk(id: nat)            // the dma-buf owns the reference
    | Close(id: nat)               // the dma-buf's release, also without a file descriptor
    | ReleaseMemory(id: nat)       // ion_buf_release: dma_free_coherent
    | ReleaseBudget(id: nat)       // ion_buf_release: ion_in_use -= size

  /** What callers and the DMA allocator keep to: only a listed allocation is freed, and new
      memory does not overlap memory already handed out. */
  predicate Enabled(s: State, a: Step) {
    match a
    case Check(len) => len < WORD
    case Lookup(_) => true
    case DmaAlloc(id, base) =>
      && id < |s.bufs| && s.bufs[id].phase.Checked?
      && forall j :: 0 <= j < |s.bufs| && Held(s.bufs[j]) ==> Apart(s.bufs[id].(base := base), s.bufs[j])
    case DmaFail(id) => id < |s.bufs| && s.bufs[id].phase.Checked?
    case Commit(id) => id < |s.bufs| && s.bufs[id].phase.Allocated?
    case Unlist(id) => id < |s.bufs| && id in s.list
    case OwnerPut(id) => id < |s.bufs| && s.bufs[id].owner.Freeing?
    case ExportFail(id) => id < |s.bufs| && s.bufs[id].exporting > 0
    case ExportOk(id) => id < |s.bufs| && s.bufs[id].exporting > 0
    case Close(id) => id < |s.bufs| && s.bufs[id].open > 0
    case ReleaseMemory(id) => id < |s.bufs| && s.bufs[id].phase.Dropped?
    case ReleaseBudget(id) => id < |s.bufs| && s.bufs[id].phase.Returned?
  }

  /** kref_put: the last one releases, whatever state the allocation is in. */
  function Put(b: Buf): Buf { if b.refs == 1 then b.(refs := 0, phase := Dropped) else b.(refs := b.refs - 1) }

  function Fresh(len: nat): Buf { Buf(len, 0, Checked, 0, Done, 0, 0, 0) }

  function Remove(list: seq<nat>, id: nat): (r: seq<nat>)
    ensures forall x :: x in r <==> x in list && x != id
    ensures NoDup(list) ==> NoDup(r)
  {
    assert list != [] ==> list == [list[0]] + list[1..];
    if list == [] then []
    else if list[0] == id then Remove(list[1..], id)
    else [list[0]] + Remove(list[1..], id)
  }

  predicate NoDup(list: seq<nat>) { list == [] || (list[0] !in list[1..] && NoDup(list[1..])) }

  /** The first listed allocation that contains the address. */
  function Find(bufs: seq<Buf>, list: seq<nat>, pa: nat): (r: Option<nat>)
    requires forall x :: x in list ==> x < |bufs|
    ensures r.Some? ==> r.value in list && Contains(bufs[r.value], pa)
    ensures r.None? ==> forall x :: x in list ==> !Contains(bufs[x], pa)
  {
    assert list != [] ==> list[0] in list && forall x :: x in list[1..] ==> x in list;
    if list == [] then None
    else if Contains(bufs[list[0]], pa) then Some(list[0])
    else Find(bufs, list[1..], pa)
  }

  /** What a step on one allocation makes of it. */
  function Change(b: Buf, a: Step): Buf {
    match a
    case DmaAlloc(_, base) => b.(base := base, phase := Allocated, refs := 1, owner := Holds)
    case DmaFail(_) => b.(phase := Failed)
    case Commit(_) => b.(phase := Live)
    case Unlist(_) => b.(owner := Freeing)
    case OwnerPut(_) => Put(b.(owner := Done))
    case Lookup(_) => b.(refs := b.refs + 1, exporting := b.exporting + 1)
    case ExportFail(_) => if b.exporting > 0 then Put(b.(exporting := b.exporting - 1)) else b
    case ExportOk(_) => if b.exporting > 0 then b.(exporting := b.exporting - 1, open := b.open + 1) else b
    case Close(_) => if b.open > 0 then Put(b.(open := b.open - 1)) else b
    case ReleaseMemory(_) => b.(phase := Returned, returned := b.returned + 1)
    case ReleaseBudget(_) => b.(phase := Gone)
    case Check(_) => b
  }

  predicate Passes(s: State, len: nat) { len != 0 && U64(s.inUse + PageAlign(len)) <= BUDGET }

  predicate Listed(s: State) { forall x :: x in s.list ==> x < |s.bufs| }

  /** The allocation a step is about. */
  function Target(s: State, a: Step): Option<nat>
    requires Listed(s)
  {
    match a
    case Check(_) => None
    case Lookup(pa) => Find(s.bufs, s.list, pa)
    case _ => Some(a.id)
  }

  function ListAfter(list: seq<nat>, a: Step): seq<nat> {
    match a
    case Commit(id) => [id] + list
    case Unlist(id) => Remove(list, id)
    case _ => list
  }

  /** What a step adds to ion_in_use. */
  function Taking(b: Buf, a: Step): int {
    match a
    case Commit(_) => b.size
    case ReleaseBudget(_) => -(b.size as int)
    case _ => 0
  }

  function Next(s: State, a: Step): State
    requires Listed(s) && Enabled(s, a)
  {
    match a
    case Check(len) => if Passes(s, len) then s.(bufs := s.bufs + [Fresh(PageAlign(len))]) else s
    case Lookup(pa) =>
      var r := Find(s.bufs, s.list, pa);
      if r.Some? then s.(bufs := s.bufs[r.value := Change(s.bufs[r.value], a)]) else s
    case _ =>
      var b := s.bufs[a.id];
      State(s.bufs[a.id := Change(b, a)], ListAfter(s.list, a), U64(s.inUse + Taking(b, a)))
  }

  ghost predicate Run(s: State, steps: seq<Step>, t: State)
    decreases steps
  {
    if |steps| == 0 then s == t
    else Listed(s) && Enabled(s, steps[0]) && Run(Next(s, steps[0]), steps[1..], t)
  }

  // ---------------------------------------------------------------- invariant

  function OwnerRef(b: Buf): int { if b.owner.Done? then 0 else 1 }

  /** The references are the owner's, the exports' and the dma-bufs', and while there is one the
      allocation lives. */
  predicate Counted(b: Buf) {
    && b.refs == OwnerRef(b) + b.exporting + b.open
    && b.returned == (if b.phase.Returned? || b.phase.Gone? then 1 else 0)
    && (b.phase.Allocated? ==> b.owner.Holds? && b.refs == 1)
    && (b.refs > 0 <==> b.phase.Allocated? || b.phase.Live?)
  }

  predicate AllCounted(bufs: seq<Buf>) { forall i :: 0 <= i < |bufs| ==> Counted(bufs[i]) }

  predicate OnList(b: Buf) { b.phase.Live? && b.owner.Holds? }

  predicate ListOk(s: State) {
    && NoDup(s.list) && Listed(s)
    && forall i :: 0 <= i < |s.bufs| ==> (OnList(s.bufs[i]) <==> i in s.list)
  }

  predicate MemoryApart(bufs: seq<Buf>) {
    forall i, j :: 0 <= i < j < |bufs| && Held(bufs[i]) && Held(bufs[j]) ==> Apart(bufs[i], bufs[j])
  }

  datatype Measure = Taken | Pending | PendingCount | Memory | Uncounted | Unreturned

  predicate IsPending(b: Buf) { b.phase.Checked? || b.phase.Allocated? }

  function Weight(m: Measure, b: Buf): nat {
    match m
    case Taken => if b.phase.Live? || b.phase.Dropped? || b.phase.Returned? then b.size else 0
    case Pending => if IsPending(b) then b.size else 0
    case PendingCount => if IsPending(b) then 1 else 0
    case Memory => if Held(b) then b.size else 0
    case Uncounted => if b.phase.Allocated? then b.size else 0
    case Unreturned => if b.phase.Returned? then b.size else 0
  }

  function Sum(m: Measure, bufs: seq<Buf>): nat {
    if bufs == [] then 0 else Sum(m, bufs[..|bufs| - 1]) + Weight(m, bufs[|bufs| - 1])
  }

  predicate Inv(s: State) {
    AllCounted(s.bufs) && ListOk(s) && MemoryApart(s.bufs) && s.inUse == U64(Sum(Taken, s.bufs))
  }

  lemma {:induction false} SumUpdate(m: Measure, bufs: seq<Buf>, i: nat, b: Buf)
    requires i < |bufs|
    ensures Sum(m, bufs[i := b]) == Sum(m, bufs) - Weight(m, bufs[i]) + Weight(m, b)
    decreases |bufs|
  {
    hide Weight;
    var n := |bufs| - 1;
    var c := bufs[i := b];
    if i == n {
      assert c[..n] == bufs[..n];
    } else {
      assert c[..n] == bufs[..n][i := b];
      SumUpdate(m, bufs[..n], i, b);
    }
  }

  lemma SumAppend(m: Measure, bufs: seq<Buf>, b: Buf)
    ensures Sum(m, bufs + [b]) == Sum(m, bufs) + Weight(m, b)
  {
    assert (bufs + [b])[..|bufs|] == bufs;
  }

  lemma {:induction false} SumAtLeast(m: Measure, bufs: seq<Buf>, i: nat)
    requires i < |bufs|
    ensures Weight(m, bufs[i]) <= Sum(m, bufs)
    decreases |bufs|
  {
    if i != |bufs| - 1 { SumAtLeast(m, bufs[..|bufs| - 1], i); }
  }

  lemma U64Add(a: int, d: int)
    ensures U64(U64(a) + d) == U64(a + d)
  {
  }

  // ---------------------------------------------------------------- every step keeps it

  /** What a step may do to the allocation it is about. */
  lemma ChangeCounted(s: State, a: Step)
    requires Inv(s) && Enabled(s, a) && Target(s, a).Some?
    ensures var b := s.bufs[Target(s, a).value];
            && Target(s, a).value < |s.bufs|
            && Counted(Change(b, a))
            && (OnList(Change(b, a)) <==> (OnList(b) && !a.Unlist?) || a.Commit?)
            && (Held(Change(b, a)) ==> a.DmaAlloc? || (Held(b) && Change(b, a).base == b.base))
            && Change(b, a).size == b.size
            && Weight(Taken, Change(b, a)) == Weight(Taken, b) + Taking(b, a)
  {
    hide Apart, NoDup, Sum, U64;
    match a {
      case Check(_) =>
      case Lookup(pa) =>
      case _ => assert Counted(s.bufs[a.id]);
    }
  }

  lemma KeepsList(s: State, a: Step, id: nat)
    requires Inv(s) && Enabled(s, a) && Target(s, a) == Some(id)
    ensures ListOk(Next(s, a))
  {
    hide Apart, Sum, U64, Change, NoDup;
    ChangeCounted(s, a);
    assert Next(s, a).bufs == s.bufs[id := Change(s.bufs[id], a)];
    if a.Commit? { Commits(s, id); }
  }

  lemma Commits(s: State, id: nat)
    requires Inv(s) && Enabled(s, Commit(id))
    ensures NoDup([id] + s.list)
  {
  }

  lemma KeepsApart(s: State, a: Step, id: nat)
    requires Inv(s) && Enabled(s, a) && Target(s, a) == Some(id)
    ensures MemoryApart(Next(s, a).bufs)
  {
    hide Sum, U64, Change, NoDup, Counted, Find;
    ChangeCounted(s, a);
    var t := Next(s, a).bufs;
    assert t == s.bufs[id := Change(s.bufs[id], a)];
    if a.DmaAlloc? {
      assert Change(s.bufs[id], a) == s.bufs[id].(base := a.base, phase := Allocated, refs := 1, owner := Holds) by { AllocChange(s.bufs[id], a); }
    }
  }

  lemma AllocChange(b: Buf, a: Step)
    requires a.DmaAlloc?
    ensures Change(b, a) == b.(base := a.base, phase := Allocated, refs := 1, owner := Holds)
  {
  }

  lemma KeepsSum(s: State, a: Step, id: nat)
    requires Inv(s) && Enabled(s, a) && Target(s, a) == Some(id)
    ensures Next(s, a).inUse == U64(Sum(Taken, Next(s, a).bufs))
  {
    hide Change, Sum, Counted, NoDup, Apart, Weight;
    ChangeCounted(s, a);
    SumUpdate(Taken, s.bufs, id, Change(s.bufs[id], a));
    U64Add(Sum(Taken, s.bufs), Taking(s.bufs[id], a));
  }

  lemma KeepsCheck(s: State, len: nat)
    requires Inv(s) && Enabled(s, Check(len))
    ensures Inv(Next(s, Check(len)))
  {
    hide Sum, NoDup, Apart, PageAlign, U64;
    SumAppend(Taken, s.bufs, Fresh(PageAlign(len)));
  }

  lemma StepInv(s: State, a: Step)
    requires Inv(s) && Enabled(s, a)
    ensures Inv(Next(s, a))
  {
    hide Change, Sum, Counted, NoDup, Apart, ListOk, MemoryApart;
    assert Listed(s) by { ListedNow(s); }
    if a.Check? {
      KeepsCheck(s, a.len);
    } else if Target(s, a).Some? {
      var id := Target(s, a).value;
      ChangeCounted(s, a);
      KeepsList(s, a, id);
      KeepsApart(s, a, id);
      KeepsSum(s, a, id);
    }
  }

  lemma ListedNow(s: State)
    requires Inv(s)
    ensures Listed(s)
  {
  }

  lemma {:induction false} RunInv(s: State, steps: seq<Step>, t: State)
    requires Inv(s) && Run(s, steps, t)
    ensures Inv(t)
    decreases steps
  {
    hide Inv, Enabled, Next, Listed;
    if |steps| != 0 {
      StepInv(s, steps[0]);
      RunInv(Next(s, steps[0]), steps[1..], t);
    }
  }

  lemma EmptyInv()
    ensures Inv(Empty)
  {
  }

  // ---------------------------------------------------------------- lifetimes

  predicate HadMemory(b: Buf) { !b.phase.Checked? && !b.phase.Failed? }

  /** Nobody is left: the owner has freed it, no export is under way, no dma-buf is open. */
  predicate Unreferenced(b: Buf) { b.owner.Done? && b.exporting == 0 && b.open == 0 }

  /** In every interleaving, memory is returned at most once, never while the owner, an export or
      a dma-buf has it, and it is on its way back as soon as none of them has. */
  lemma ReturnedExactlyOnce(steps: seq<Step>, t: State, i: nat)
    requires Run(Empty, steps, t) && i < |t.bufs| && HadMemory(t.bufs[i])
    ensures var b := t.bufs[i];
            && b.returned <= 1
            && (!Unreferenced(b) ==> Held(b) && b.returned == 0)
            && (Unreferenced(b) ==> b.returned == 1 || Enabled(t, ReleaseMemory(i)))
  {
    hide Run, ListOk, MemoryApart, Sum;
    Reachable(steps, t);
    assert Counted(t.bufs[i]);
  }

  lemma Reachable(steps: seq<Step>, t: State)
    requires Run(Empty, steps, t)
    ensures Inv(t)
  {
    hide Inv, Run;
    EmptyInv();
    RunInv(Empty, steps, t);
  }

  predicate Dead(b: Buf) { b.phase.Dropped? || b.phase.Returned? || b.phase.Gone? }

  /** Once its last reference is gone an allocation never gets another one, and its memory is not
      returned again, whatever runs on. */
  lemma {:induction false} DeadStaysDead(s: State, steps: seq<Step>, t: State, i: nat)
    requires Inv(s) && Run(s, steps, t) && i < |s.bufs| && Dead(s.bufs[i])
    ensures i < |t.bufs| && Dead(t.bufs[i]) && t.bufs[i].refs == 0
    ensures s.bufs[i].returned <= t.bufs[i].returned <= 1
    decreases steps
  {
    hide Inv, Enabled, Next, Listed;
    if |steps| == 0 {
      InvCounted(s, i);
    } else {
      StepInv(s, steps[0]);
      DeadStep(s, steps[0], i);
      DeadStaysDead(Next(s, steps[0]), steps[1..], t, i);
    }
  }

  lemma InvCounted(s: State, i: nat)
    requires Inv(s) && i < |s.bufs|
    ensures Counted(s.bufs[i])
  {
  }

  lemma DeadStep(s: State, a: Step, i: nat)
    requires Inv(s) && Enabled(s, a) && i < |s.bufs| && Dead(s.bufs[i])
    ensures i < |Next(s, a).bufs| && Dead(Next(s, a).bufs[i])
    ensures s.bufs[i].returned <= Next(s, a).bufs[i].returned
  {
  }

  /** A lookup takes its reference on a live allocation, the only one whose memory holds the
      address; it fails only if no allocation on the list does. */
  lemma LookupIsAlive(steps: seq<Step>, t: State, pa: nat)
    requires Run(Empty, steps, t)
    ensures Listed(t)
    ensures match Find(t.bufs, t.list, pa)
            case Some(id) =>
              && t.bufs[id].phase.Live? && t.bufs[id].refs > 0 && t.bufs[id].returned == 0
              && t.bufs[id].base <= pa < t.bufs[id].base + t.bufs[id].size
              && (forall j :: 0 <= j < |t.bufs| && j != id && Held(t.bufs[j]) ==>
                    !(t.bufs[j].base <= pa < t.bufs[j].base + t.bufs[j].size))
            case None =>
              forall j :: 0 <= j < |t.bufs| && OnList(t.bufs[j]) ==> !(t.bufs[j].base <= pa < t.bufs[j].base + t.bufs[j].size)
  {
    hide Run, Sum, NoDup;
    Reachable(steps, t);
    var r := Find(t.bufs, t.list, pa);
    if r.Some? {
      InvCounted(t, r.value);
      assert OnList(t.bufs[r.value]);
      forall j | 0 <= j < |t.bufs| && j != r.value && Held(t.bufs[j]) ensures !Contains(t.bufs[j], pa) {
        if j < r.value { assert Apart(t.bufs[j], t.bufs[r.value]); } else { assert Apart(t.bufs[r.value], t.bufs[j]); }
      }
    }
  }

  lemma {:induction false} SumsBalance(bufs: seq<Buf>)
    ensures Sum(Taken, bufs) + Sum(Uncounted, bufs) == Sum(Memory, bufs) + Sum(Unreturned, bufs)
    decreases |bufs|
  {
    if bufs != [] { SumsBalance(bufs[..|bufs| - 1]); }
  }

  lemma {:induction false} NoWeight(m: Measure, bufs: seq<Buf>)
    requires forall i :: 0 <= i < |bufs| ==> Weight(m, bufs[i]) == 0
    ensures Sum(m, bufs) == 0
    decreases |bufs|
  {
    if bufs != [] { NoWeight(m, bufs[..|bufs| - 1]); }
  }

  /** No allocation between dma_alloc_coherent and its count, no release between dma_free_coherent
      and its own. */
  predicate Quiescent(s: State) {
    forall i :: 0 <= i < |s.bufs| ==> !s.bufs[i].phase.Allocated? && !s.bufs[i].phase.Returned?
  }

  /** ion_in_use, a 64-bit count, is the memory handed out, less what is not yet counted and plus
      what is returned but still counted; at a quiescent point it is just the memory handed out. */
  lemma InUseIsExact(steps: seq<Step>, t: State)
    requires Run(Empty, steps, t)
    ensures t.inUse == U64(Sum(Memory, t.bufs) - Sum(Uncounted, t.bufs) + Sum(Unreturned, t.bufs))
    ensures Quiescent(t) ==> t.inUse == U64(Sum(Memory, t.bufs))
  {
    hide Run, ListOk, MemoryApart, AllCounted, Sum;
    Reachable(steps, t);
    SumsBalance(t.bufs);
    if Quiescent(t) {
      NoWeight(Uncounted, t.bufs);
      NoWeight(Unreturned, t.bufs);
    }
  }

  // ---------------------------------------------------------------- the budget

  /** At most k allocations between check and count at once, each at most `largest` bytes. */
  predicate Within(k: nat, largest: nat, s: State) {
    && Sum(PendingCount, s.bufs) <= k
    && forall i :: 0 <= i < |s.bufs| && IsPending(s.bufs[i]) ==> s.bufs[i].size <= largest
  }

  ghost predicate BoundedRun(k: nat, largest: nat, s: State, steps: seq<Step>, t: State)
    decreases steps
  {
    && Within(k, largest, s)
    && if |steps| == 0 then s == t
       else Listed(s) && Enabled(s, steps[0]) && BoundedRun(k, largest, Next(s, steps[0]), steps[1..], t)
  }

  /** All that is taken, or has passed the check and may yet be. */
  function Claimed(bufs: seq<Buf>): nat { Sum(Taken, bufs) + Sum(Pending, bufs) }

  lemma {:induction false} PendingAtMost(bufs: seq<Buf>, largest: nat)
    requires forall i :: 0 <= i < |bufs| && IsPending(bufs[i]) ==> bufs[i].size <= largest
    ensures Sum(Pending, bufs) <= Sum(PendingCount, bufs) * largest
    decreases |bufs|
  {
    if bufs != [] {
      PendingAtMost(bufs[..|bufs| - 1], largest);
      var c := Sum(PendingCount, bufs[..|bufs| - 1]);
      assert (c + 1) * largest == c * largest + largest;
    }
  }

  lemma Product(a: nat, b: nat, l: nat)
    requires a <= b
    ensures a * l <= b * l
  {
  }

  /** A step on one allocation claims nothing new. */
  lemma ClaimShrinks(s: State, a: Step, id: nat)
    requires Inv(s) && Enabled(s, a) && Target(s, a) == Some(id)
    ensures Claimed(Next(s, a).bufs) <= Claimed(s.bufs)
  {
    hide Sum, NoDup, Apart, U64, ListOk, MemoryApart, Counted;
    ChangeCounted(s, a);
    var b := Change(s.bufs[id], a);
    SumUpdate(Taken, s.bufs, id, b);
    SumUpdate(Pending, s.bufs, id, b);
    assert Counted(s.bufs[id]);
    ChangeClaims(s.bufs[id], a, s, id);
  }

  lemma ChangeClaims(b: Buf, a: Step, s: State, id: nat)
    requires Inv(s) && Enabled(s, a) && Target(s, a) == Some(id) && id < |s.bufs| && b == s.bufs[id]
    ensures Weight(Taken, Change(b, a)) + Weight(Pending, Change(b, a)) <= Weight(Taken, b) + Weight(Pending, b)
  {
  }

  lemma ClaimsStay(k: nat, largest: nat, s: State, a: Step)
    requires k > 0 && BUDGET + k * largest < WORD
    requires Inv(s) && Enabled(s, a) && Within(k, largest, Next(s, a))
    requires Claimed(s.bufs) <= BUDGET + (k - 1) * largest
    ensures Claimed(Next(s, a).bufs) <= BUDGET + (k - 1) * largest
  {
    hide Sum, AllCounted, NoDup, MemoryApart, PageAlign, Change, Find;
    if a.Check? {
      if Passes(s, a.len) { CheckClaims(k, largest, s, a.len); }
    } else if Target(s, a).Some? {
      ClaimShrinks(s, a, Target(s, a).value);
    }
  }

  lemma CheckClaims(k: nat, largest: nat, s: State, len: nat)
    requires k > 0 && BUDGET + k * largest < WORD
    requires Inv(s) && len < WORD && Passes(s, len) && Within(k, largest, Next(s, Check(len)))
    requires Claimed(s.bufs) <= BUDGET + (k - 1) * largest
    ensures Claimed(Next(s, Check(len)).bufs) <= BUDGET + (k - 1) * largest
  {
    hide Sum, AllCounted, ListOk, MemoryApart, PageAlign;
    var n := PageAlign(len);
    var b := Fresh(n);
    var after := s.bufs + [b];
    SumAppend(Taken, s.bufs, b);
    SumAppend(Pending, s.bufs, b);
    SumAppend(PendingCount, s.bufs, b);
    assert after[|s.bufs|] == b;
    assert n <= largest;
    assert k * largest == (k - 1) * largest + largest;
    assert s.inUse == Sum(Taken, s.bufs);
    assert s.inUse + n <= BUDGET;
    forall i | 0 <= i < |s.bufs| && IsPending(s.bufs[i]) ensures s.bufs[i].size <= largest {
      assert after[i] == s.bufs[i];
    }
    PendingAtMost(s.bufs, largest);
    Product(Sum(PendingCount, s.bufs), k - 1, largest);
  }

  lemma {:induction false} BoundedRunClaims(k: nat, largest: nat, s: State, steps: seq<Step>, t: State)
    requires k > 0 && BUDGET + k * largest < WORD
    requires Inv(s) && BoundedRun(k, largest, s, steps, t) && Claimed(s.bufs) <= BUDGET + (k - 1) * largest
    ensures Inv(t) && Claimed(t.bufs) <= BUDGET + (k - 1) * largest
    decreases steps
  {
    hide Inv, Enabled, Next, Listed, Within, Claimed;
    if |steps| != 0 {
      StepInv(s, steps[0]);
      assert Within(k, largest, Next(s, steps[0]));
      ClaimsStay(k, largest, s, steps[0]);
      BoundedRunClaims(k, largest, Next(s, steps[0]), steps[1..], t);
    }
  }

  /** cvi_ion_get_memory_state */
  function ReportedFree(s: State): nat { U64(BUDGET - s.inUse) }

  /** With at most k allocations at once between check and count, of at most `largest` bytes each,
      no interleaving takes more than the budget and k - 1 of them. */
  lemma BudgetOverrunBound(k: nat, largest: nat, steps: seq<Step>, t: State)
    requires k > 0 && BUDGET + k * largest < WORD && BoundedRun(k, largest, Empty, steps, t)
    ensures t.inUse == Sum(Taken, t.bufs) <= BUDGET + (k - 1) * largest
  {
    hide BoundedRun, ListOk, MemoryApart;
    EmptyInv();
    assert Claimed(Empty.bufs) == 0;
    assert 0 <= (k - 1) * largest;
    assert k * largest == (k - 1) * largest + largest;
    BoundedRunClaims(k, largest, Empty, steps, t);
  }

  /** One at a time, the budget is kept and the reported free bytes are exact. */
  lemma SingleAllocatorKeepsBudget(largest: nat, steps: seq<Step>, t: State)
    requires BUDGET + largest < WORD && BoundedRun(1, largest, Empty, steps, t)
    ensures t.inUse <= 96 * 1024 * 1024 && ReportedFree(t) + t.inUse == 96 * 1024 * 1024
  {
    hide BoundedRun;
    BudgetOverrunBound(1, largest, steps, t);
  }

  /** The report is exact precisely while the budget is kept; past it, it wraps to a huge value. */
  lemma ReportExactIff(s: State)
    requires s.inUse < WORD
    ensures ReportedFree(s) + s.inUse == BUDGET <==> s.inUse <= BUDGET
    ensures s.inUse > BUDGET ==> ReportedFree(s) > BUDGET
  {
    if s.inUse > BUDGET { assert ReportedFree(s) == BUDGET - s.inUse + WORD; }
  }

  // ---------------------------------------------------------------- the bound is reached

  function Total(sizes: seq<nat>): nat {
    if sizes == [] then 0 else Total(sizes[..|sizes| - 1]) + sizes[|sizes| - 1]
  }

  lemma TotalMore(sizes: seq<nat>, m: nat)
    requires m < |sizes|
    ensures Total(sizes[..m + 1]) == Total(sizes[..m]) + sizes[m]
  {
    assert sizes[..m + 1][..m] == sizes[..m];
  }

  lemma {:induction false} TotalGrows(sizes: seq<nat>, i: nat, j: nat)
    requires i <= j <= |sizes|
    ensures Total(sizes[..i]) <= Total(sizes[..j])
    decreases j
  {
    if i < j {
      TotalGrows(sizes, i, j - 1);
      TotalMore(sizes, j - 1);
    }
  }

  /** Allocations of the given sizes, one after the other in memory, the first m of them counted. */
  function Piece(sizes: seq<nat>, m: nat, i: nat): Buf
    requires i < |sizes|
  {
    if i < m then Buf(sizes[i], Total(sizes[..i]), Live, 1, Holds, 0, 0, 0) else Fresh(sizes[i])
  }

  function Down(m: nat): (r: seq<nat>)
    ensures forall x :: x in r ==> x < m
  {
    if m == 0 then [] else [m - 1] + Down(m - 1)
  }

  function Stage(sizes: seq<nat>, m: nat): State
    requires m <= |sizes|
  {
    State(seq(|sizes|, i requires 0 <= i < |sizes| => Piece(sizes, m, i)), Down(m), Total(sizes[..m]))
  }

  lemma {:induction false} StageCount(sizes: seq<nat>, m: nat)
    requires m <= |sizes|
    ensures Sum(PendingCount, Stage(sizes, m).bufs) == |sizes| - m
    decreases |sizes|
  {
    hide Total;
    if sizes != [] {
      var n := |sizes| - 1;
      var front := sizes[..n];
      var k := if m <= n then m else n;
      StageCount(front, k);
      var bufs := Stage(sizes, m).bufs;
      forall i | 0 <= i < n ensures bufs[i] == Piece(front, k, i) { assert front[..i] == sizes[..i]; }
      assert bufs[..n] == Stage(front, k).bufs;
    }
  }

  lemma StageWithin(k: nat, largest: nat, sizes: seq<nat>, m: nat)
    requires m <= |sizes| <= m + k && forall i :: m <= i < |sizes| ==> sizes[i] <= largest
    ensures Within(k, largest, Stage(sizes, m)) && Listed(Stage(sizes, m))
  {
    hide Sum, Total;
    StageCount(sizes, m);
  }

  lemma BoundedCons(k: nat, largest: nat, s: State, a: Step, steps: seq<Step>, t: State)
    requires Within(k, largest, s) && Listed(s) && Enabled(s, a) && BoundedRun(k, largest, Next(s, a), steps, t)
    ensures BoundedRun(k, largest, s, [a] + steps, t)
  {
  }

  /** The next piece gets its memory. */
  function Placed(sizes: seq<nat>, m: nat): State
    requires m < |sizes|
  {
    var s := Stage(sizes, m);
    s.(bufs := s.bufs[m := Piece(sizes, m + 1, m).(phase := Allocated)])
  }

  lemma PlaceOne(sizes: seq<nat>, m: nat)
    requires m < |sizes|
    ensures var s, a := Stage(sizes, m), DmaAlloc(m, Total(sizes[..m]));
            Listed(s) && Enabled(s, a) && Next(s, a).bufs == Placed(sizes, m).bufs && Next(s, a).list == s.list
            && (s.inUse < WORD ==> Next(s, a).inUse == s.inUse)
  {
    hide Total, Sum;
    var s, a := Stage(sizes, m), DmaAlloc(m, Total(sizes[..m]));
    forall j | 0 <= j < |s.bufs| && Held(s.bufs[j]) ensures Apart(s.bufs[m].(base := a.base), s.bufs[j]) {
      TotalMore(sizes, j);
      TotalGrows(sizes, j + 1, m);
    }
  }

  lemma CountOne(sizes: seq<nat>, m: nat)
    requires m < |sizes| && Total(sizes[..m + 1]) < WORD
    ensures var s := Placed(sizes, m);
            Listed(s) && Enabled(s, Commit(m)) && Next(s, Commit(m)) == Stage(sizes, m + 1)
  {
    hide Total, Sum;
    TotalMore(sizes, m);
    var t := Next(Placed(sizes, m), Commit(m));
    assert t.bufs == Stage(sizes, m + 1).bufs;
  }

  lemma PlacedWithin(k: nat, largest: nat, sizes: seq<nat>, m: nat)
    requires m < |sizes| <= m + k && forall i :: m <= i < |sizes| ==> sizes[i] <= largest
    ensures Within(k, largest, Placed(sizes, m)) && Listed(Placed(sizes, m))
  {
    hide Sum, Total;
    var s := Stage(sizes, m);
    StageWithin(k, largest, sizes, m);
    SumUpdate(PendingCount, s.bufs, m, Piece(sizes, m + 1, m).(phase := Allocated));
  }

  /** From a stage on: place and count the next piece. */
  lemma FillOne(k: nat, largest: nat, sizes: seq<nat>, m: nat, steps: seq<Step>, t: State)
    requires m < |sizes| <= m + k && (forall i :: m <= i < |sizes| ==> sizes[i] <= largest)
    requires Total(sizes[..m + 1]) < WORD && BoundedRun(k, largest, Stage(sizes, m + 1), steps, t)
    ensures BoundedRun(k, largest, Stage(sizes, m), [DmaAlloc(m, Total(sizes[..m]))] + ([Commit(m)] + steps), t)
  {
    hide BoundedRun, Within, Sum, Total, Enabled, Next, Listed;
    StageWithin(k, largest, sizes, m);
    PlacedWithin(k, largest, sizes, m);
    PlaceOne(sizes, m);
    CountOne(sizes, m);
    TotalMore(sizes, m);
    assert Next(Stage(sizes, m), DmaAlloc(m, Total(sizes[..m]))) == Placed(sizes, m);
    BoundedCons(k, largest, Placed(sizes, m), Commit(m), steps, t);
    BoundedCons(k, largest, Stage(sizes, m), DmaAlloc(m, Total(sizes[..m])), [Commit(m)] + steps, t);
  }

  /** Place and count all that are checked. */
  lemma {:induction false} Filling(k: nat, largest: nat, sizes: seq<nat>, m: nat) returns (steps: seq<Step>)
    requires m <= |sizes| <= m + k && (forall i :: m <= i < |sizes| ==> sizes[i] <= largest) && Total(sizes) < WORD
    ensures BoundedRun(k, largest, Stage(sizes, m), steps, Stage(sizes, |sizes|))
    decreases |sizes| - m
  {
    hide Within, Listed, Enabled, Next, Stage, BoundedRun, Total;
    steps := [];
    if m == |sizes| {
      StageWithin(k, largest, sizes, m);
      BoundedNone(k, largest, Stage(sizes, m));
    } else {
      var rest := Filling(k, largest, sizes, m + 1);
      TotalGrows(sizes, m + 1, |sizes|);
      assert sizes[..|sizes|] == sizes;
      FillOne(k, largest, sizes, m, rest, Stage(sizes, |sizes|));
      steps := [DmaAlloc(m, Total(sizes[..m]))] + ([Commit(m)] + rest);
    }
  }

  lemma BoundedNone(k: nat, largest: nat, s: State)
    requires Within(k, largest, s)
    ensures BoundedRun(k, largest, s, [], s)
  {
  }

  predicate WholePages(n: nat) { n % PAGE == 0 }

  lemma AlignedIs(n: nat)
    requires WholePages(n) && n + PAGE < WORD
    ensures PageAlign(n) == n
  {
  }

  /** One more check that passes. */
  lemma CheckOne(k: nat, largest: nat, sizes: seq<nat>, m: nat, x: nat, steps: seq<Step>, t: State)
    requires m <= |sizes| <= m + k && (forall i :: m <= i < |sizes| ==> sizes[i] <= largest)
    requires 0 < x && WholePages(x) && Total(sizes[..m]) + x <= BUDGET
    requires BoundedRun(k, largest, Stage(sizes + [x], m), steps, t)
    ensures BoundedRun(k, largest, Stage(sizes, m), [Check(x)] + steps, t)
  {
    hide BoundedRun, Within, Sum, Total, PageAlign;
    StageWithin(k, largest, sizes, m);
    AlignedIs(x);
    var more := sizes + [x];
    assert more[..m] == sizes[..m];
    forall i | 0 <= i < |sizes| ensures Piece(more, m, i) == Piece(sizes, m, i) { assert more[..i] == sizes[..i]; }
    assert Next(Stage(sizes, m), Check(x)).bufs == Stage(more, m).bufs;
    BoundedCons(k, largest, Stage(sizes, m), Check(x), steps, t);
  }

  /** n more checks of x bytes before any is counted, then all of them are. */
  lemma {:induction false} Together(k: nat, x: nat, sizes: seq<nat>, m: nat, n: nat) returns (steps: seq<Step>)
    requires m <= |sizes| && |sizes| + n <= m + k && (forall i :: m <= i < |sizes| ==> sizes[i] == x)
    requires 0 < x && WholePages(x) && Total(sizes[..m]) + x <= BUDGET && Total(sizes) + n * x < WORD
    ensures BoundedRun(k, x, Stage(sizes, m), steps, Stage(sizes + Copies(x, n), |sizes| + n))
    decreases n
  {
    hide BoundedRun, Within, Stage, Total;
    if n == 0 {
      assert sizes + Copies(x, 0) == sizes;
      steps := Filling(k, x, sizes, m);
    } else {
      var more := sizes + [x];
      assert more[..m] == sizes[..m] && more[..|sizes|] == sizes && more[..|more|] == more;
      TotalMore(more, |sizes|);
      assert n * x == (n - 1) * x + x;
      var rest := Together(k, x, more, m, n - 1);
      assert more + Copies(x, n - 1) == sizes + Copies(x, n);
      CheckOne(k, x, sizes, m, x, rest, Stage(sizes + Copies(x, n), |sizes| + n));
      steps := [Check(x)] + rest;
    }
  }

  function Copies(x: nat, n: nat): (r: seq<nat>)
    ensures |r| == n
  {
    seq(n, _ => x)
  }

  lemma {:induction false} TotalCopies(sizes: seq<nat>, x: nat, n: nat)
    ensures Total(sizes + Copies(x, n)) == Total(sizes) + n * x
    decreases n
  {
    var all := sizes + Copies(x, n);
    if n == 0 {
      assert all == sizes;
    } else {
      TotalCopies(sizes, x, n - 1);
      assert all[..|all| - 1] == sizes + Copies(x, n - 1);
      assert n * x == (n - 1) * x + x;
    }
  }

  /** One allocation after the other, n of x bytes each. */
  lemma {:induction false} OneByOne(k: nat, x: nat, largest: nat, sizes: seq<nat>, n: nat, steps: seq<Step>, t: State)
    returns (all: seq<Step>)
    requires k > 0 && 0 < x <= largest && WholePages(x) && Total(sizes) + n * x <= BUDGET
    requires BoundedRun(k, largest, Stage(sizes + Copies(x, n), |sizes| + n), steps, t)
    ensures BoundedRun(k, largest, Stage(sizes, |sizes|), all, t)
    decreases n
  {
    hide BoundedRun, Within, Stage, Total;
    if n == 0 {
      assert sizes + Copies(x, 0) == sizes;
      all := steps;
    } else {
      var more, m := sizes + [x], |sizes|;
      assert more[..m] == sizes && sizes[..m] == sizes && more[..m + 1] == more;
      TotalMore(more, m);
      assert n * x == (n - 1) * x + x;
      assert more + Copies(x, n - 1) == sizes + Copies(x, n);
      var rest := OneByOne(k, x, largest, more, n - 1, steps, t);
      FillOne(k, largest, more, m, rest, t);
      var placed := [DmaAlloc(m, Total(more[..m]))] + ([Commit(m)] + rest);
      CheckOne(k, largest, sizes, m, x, placed, t);
      all := [Check(x)] + placed;
    }
  }

  /** The bound is tight, for every k and every size of whole pages within the budget: filled up to
      one such allocation, k of them checked before any is counted take the budget and k - 1 more;
      with two or more the reported free bytes wrap. */
  lemma OverrunIsReached(k: nat, x: nat)
    requires k > 0 && 0 < x <= BUDGET && WholePages(x) && BUDGET + k * x < WORD
    ensures exists steps, t ::
              && BoundedRun(k, x, Empty, steps, t)
              && t.inUse == BUDGET + (k - 1) * x
              && (k > 1 ==> ReportedFree(t) > BUDGET)
  {
    hide BoundedRun, Stage, Total, ReportedFree, PageAlign;
    var q, r := BUDGET / x - 1, BUDGET % x;
    Division(x);
    var first := if r > 0 then [r] else [];
    var filled := first + Copies(x, q);
    TotalFirst(r);
    TotalCopies(first, x, q);
    var n := |filled|;
    assert filled[..n] == filled;
    assert k * x == (k - 1) * x + x;
    var steps := Together(k, x, filled, n, k);
    var t := Stage(filled + Copies(x, k), n + k);
    TotalCopies(filled, x, k);
    InUseOf(filled + Copies(x, k));
    var more := OneByOne(k, x, x, first, q, steps, t);
    StageNone();
    if k > 1 { Bits.MulAtLeast(k - 1, x); }
    ReportExactIff(t);
    if r > 0 {
      assert [] + Copies(r, 1) == [r];
      var all := OneByOne(k, r, x, [], 1, more, t);
      assert BoundedRun(k, x, Empty, all, t);
    } else {
      assert BoundedRun(k, x, Empty, more, t);
    }
  }

  lemma TotalFirst(r: nat)
    ensures Total([]) == 0 && Total(if r > 0 then [r] else []) == r
  {
    assert [r][..0] == [];
    assert Total([r]) == Total([r][..0]) + r;
  }

  lemma StageNone()
    ensures Stage([], 0) == Empty
  {
    var e: seq<nat> := [];
    assert e[..0] == [];
  }

  lemma InUseOf(sizes: seq<nat>)
    ensures Stage(sizes, |sizes|).inUse == Total(sizes)
  {
    assert sizes[..|sizes|] == sizes;
  }

  /** The budget in pieces of x bytes and a smaller rest, all of whole pages. */
  lemma Division(x: nat)
    requires 0 < x <= BUDGET && WholePages(x)
    ensures BUDGET / x >= 1 && BUDGET % x < x && WholePages(BUDGET % x)
    ensures BUDGET % x + (BUDGET / x - 1) * x == BUDGET - x
  {
    Bits.DivMod(BUDGET, x);
    var q, r := BUDGET / x, BUDGET % x;
    if q < 1 { Bits.DivUnique(BUDGET, x, q, r); NotPositive(q, x); }
    assert (q - 1) * x == q * x - x;
    RestOfPages(q, x, r);
  }

  lemma NotPositive(q: int, x: nat)
    requires q < 1
    ensures q * x <= 0
  {
  }

  lemma RestOfPages(q: int, x: nat, r: nat)
    requires BUDGET == q * x + r && WholePages(x)
    ensures WholePages(r)
  {
    var p := x / PAGE;
    assert x == p * PAGE;
    assert q * x == (q * p) * PAGE;
    assert r == (BUDGET / PAGE - q * p) * PAGE;
  }
}
