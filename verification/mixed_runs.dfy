/** kmalloc and user mapping calls interleaved, as init_task of kernel/core/kmain.c does:
    what each of them needs is kept by the other. */
module MixedRuns {
  import opened Translation
  import opened KernelTables
  import opened PageBitmap
  import opened ContextSwitch
  import K = Kmalloc
  import U = UserTables

  datatype Op = Alloc(pages: nat) | Map(call: U.Call)

  /** The heap's tables stand for what was allocated, linked or not yet. */
  ghost predicate HeapIn(mem: Memory, l2Start: int, h: K.Heap)
    requires Layout(l2Start)
  {
    && K.InScan(h.history)
    && (K.Represents(mem, l2Start, h.history) || (h.history == [] && K.Unlinked(mem, l2Start)))
  }

  /** One operation on the memory, as far as kmalloc and the mapping calls promise. */
  ghost predicate OpStep(l2Start: int, mem: Memory, h: K.Heap, op: Op, mem': Memory)
    requires Layout(l2Start)
  {
    match op
    case Alloc(n) => K.SameOutsideHeap(mem, mem', l2Start) && HeapIn(mem', l2Start, K.Allocated(h, n))
    case Map(c) => mem' == U.CallMem(mem, c)
  }

  function CountsOf(ops: seq<Op>): seq<nat> {
    if ops == [] then []
    else
      var before := CountsOf(ops[..|ops| - 1]);
      match ops[|ops| - 1] case Alloc(n) => before + [n] case Map(_) => before
  }

  function CallsOf(ops: seq<Op>): seq<U.Call> {
    if ops == [] then []
    else
      var before := CallsOf(ops[..|ops| - 1]);
      match ops[|ops| - 1] case Alloc(_) => before case Map(c) => before + [c]
  }

  ghost predicate IsRun(l2Start: int, mems: seq<Memory>, ops: seq<Op>)
    requires Layout(l2Start)
  {
    && |mems| == |ops| + 1
    && forall i :: 0 <= i < |ops| ==> OpStep(l2Start, mems[i], K.Run(CountsOf(ops[..i])), ops[i], mems[i + 1])
  }

  /** All that the theorems about kmalloc and about user walks ask of a memory. */
  ghost predicate Holds(l2Start: int, mem: Memory, h: K.Heap, calls: seq<U.Call>, id: int)
    requires Layout(l2Start)
  {
    && KernelWindows(mem, l2Start) && TopTables(mem) && HeapIn(mem, l2Start, h)
    && U.Represents(mem, U.Root(id), U.StoreOf(id, calls))
  }

  /** User mapping calls leave every doubleword below their tables as it is, so all that the
      kernel's half needs. */
  lemma CallKeepsKernel(mem: Memory, c: U.Call, l2Start: int, h: K.Heap)
    requires Layout(l2Start) && KernelWindows(mem, l2Start) && TopTables(mem) && HeapIn(mem, l2Start, h)
    ensures var mem' := U.CallMem(mem, c);
      KernelWindows(mem', l2Start) && TopTables(mem') && HeapIn(mem', l2Start, h)
  {
    var mem' := U.CallMem(mem, c);
    CallStaysAbove(mem, c);
    SameUpperTables(mem, mem');
    SameHeapTables(mem, mem', l2Start, h.history);
  }

  lemma CallStaysAbove(mem: Memory, c: U.Call)
    ensures U.SameBelow(mem, U.CallMem(mem, c))
  {
    forall a | 0x8000_0000 <= a < 0x8020_0000 ensures Read(U.CallMem(mem, c), a) == Read(mem, a) {
      U.CallFrame(mem, c, a);
    }
  }

  lemma SameUpperTables(mem: Memory, mem': Memory)
    requires U.SameBelow(mem, mem') && TopTables(mem)
    ensures TopTables(mem')
  {
    forall i | 0 <= i < 512
      ensures Entry(mem', L0_BASE_PHYS, i) == Entry(mem, L0_BASE_PHYS, i)
      ensures Entry(mem', L1_BASE_PHYS, i) == Entry(mem, L1_BASE_PHYS, i)
      ensures Entry(mem', L2_BASE_PHYS, i) == Entry(mem, L2_BASE_PHYS, i)
      ensures Entry(mem', L2_INDEX3_BASE_PHYS, i) == Entry(mem, L2_INDEX3_BASE_PHYS, i)
    {
    }
  }

  lemma SameHeapTables(mem: Memory, mem': Memory, l2Start: int, history: seq<nat>)
    requires Layout(l2Start) && U.SameBelow(mem, mem')
    ensures K.Represents(mem, l2Start, history) ==> K.Represents(mem', l2Start, history)
    ensures K.Unlinked(mem, l2Start) ==> K.Unlinked(mem', l2Start)
  {
    forall i | 0 <= i < 512 ensures Entry(mem', L2_INDEX3_BASE_PHYS, i) == Entry(mem, L2_INDEX3_BASE_PHYS, i) {
    }
    forall i | 0 <= i < K.AREA_WORDS ensures Entry(mem', l2Start, i) == Entry(mem, l2Start, i) {
    }
  }

  /** kmalloc writes below the user tables. */
  lemma AllocKeepsUser(mem: Memory, mem': Memory, l2Start: int, id: int, d: U.Direct)
    requires Layout(l2Start) && K.SameOutsideHeap(mem, mem', l2Start) && U.Represents(mem, U.Root(id), d)
    ensures U.Represents(mem', U.Root(id), d)
  {
    var root := U.Root(id);
    forall i | 0 <= i < 512
      ensures Entry(mem', root, i) == Entry(mem, root, i)
      ensures Entry(mem', U.L1Of(root), i) == Entry(mem, U.L1Of(root), i)
      ensures Entry(mem', U.L2Of(root), i) == Entry(mem, U.L2Of(root), i)
      ensures Entry(mem', U.L3Of(root), i) == Entry(mem, U.L3Of(root), i)
    {
    }
  }

  lemma AllocKeepsKernel(mem: Memory, mem': Memory, l2Start: int, h: K.Heap)
    requires Layout(l2Start) && KernelWindows(mem, l2Start) && TopTables(mem)
    requires K.SameOutsideHeap(mem, mem', l2Start) && HeapIn(mem', l2Start, h)
    ensures KernelWindows(mem', l2Start) && TopTables(mem')
  {
    K.HeapKeepsTop(mem, mem', l2Start, h.history);
  }

  lemma StepHolds(l2Start: int, mem: Memory, h: K.Heap, calls: seq<U.Call>, id: int, op: Op, mem': Memory)
    requires Layout(l2Start) && Holds(l2Start, mem, h, calls, id) && OpStep(l2Start, mem, h, op, mem')
    ensures op.Alloc? ==> Holds(l2Start, mem', K.Allocated(h, op.pages), calls, id)
    ensures op.Map? ==> Holds(l2Start, mem', h, calls + [op.call], id)
  {
    match op
    case Alloc(n) =>
      AllocKeepsKernel(mem, mem', l2Start, K.Allocated(h, n));
      AllocKeepsUser(mem, mem', l2Start, id, U.StoreOf(id, calls));
    case Map(c) =>
      CallKeepsKernel(mem, c, l2Start, h);
      U.CallRepresents(mem, c, id, U.StoreOf(id, calls));
      assert (calls + [c])[..|calls|] == calls;
  }

  lemma ShorterRun(l2Start: int, mems: seq<Memory>, ops: seq<Op>, k: nat)
    requires Layout(l2Start) && IsRun(l2Start, mems, ops) && k + 1 == |ops|
    ensures IsRun(l2Start, mems[..k + 1], ops[..k]) && mems[..k + 1][k] == mems[k]
    ensures OpStep(l2Start, mems[k], K.Run(CountsOf(ops[..k])), ops[k], mems[|ops|])
  {
    forall i | 0 <= i < k
      ensures OpStep(l2Start, mems[..k + 1][i], K.Run(CountsOf(ops[..k][..i])), ops[..k][i], mems[..k + 1][i + 1])
    {
      assert ops[..k][..i] == ops[..i];
    }
  }

  /** Whatever order they come in: after any run of allocations and user mapping calls the
      heap's tables stand for the allocations alone, and each process's tables for its calls
      alone. */
  lemma {:induction false} RunHolds(l2Start: int, mems: seq<Memory>, ops: seq<Op>, id: int)
    requires Layout(l2Start) && IsRun(l2Start, mems, ops) && Holds(l2Start, mems[0], K.Heap(0, []), [], id)
    ensures Holds(l2Start, mems[|ops|], K.Run(CountsOf(ops)), CallsOf(ops), id)
    decreases |ops|
  {
    if ops != [] {
      var k := |ops| - 1;
      var before, prefix, op := ops[..k], mems[..k + 1], ops[k];
      ShorterRun(l2Start, mems, ops, k);
      RunHolds(l2Start, prefix, before, id);
      var h, calls := K.Run(CountsOf(before)), CallsOf(before);
      StepHolds(l2Start, mems[k], h, calls, id, op, mems[|ops|]);
      if op.Alloc? {
        RunOfOneMore(CountsOf(before), op.pages);
      }
    }
  }

  lemma RunOfOneMore(counts: seq<nat>, n: nat)
    ensures K.Run(counts + [n]) == K.Allocated(K.Run(counts), n)
  {
    assert (counts + [n])[..|counts|] == counts;
  }

  /** The mixed run in terms of addresses: every page of every allocation is reachable if and
      only if the allocations took at most 512 pages, every user walk is the lookup in the
      process's own store, and no kernel address outside the heap's gigabyte has moved. */
  lemma MixedRun(l2Start: int, mems: seq<Memory>, ops: seq<Op>, id: int, va: nat)
    requires Layout(l2Start) && IsRun(l2Start, mems, ops) && Holds(l2Start, mems[0], K.Heap(0, []), [], id)
    requires K.AllMapped(CountsOf(ops)) && K.Total(CountsOf(ops)) <= SCANNED_PAGES
    ensures K.AllReachable(mems[|ops|], K.Run(CountsOf(ops)).history) <==> K.Total(CountsOf(ops)) <= 512
    ensures Walk(mems[|ops|], U.Root(id), va) == U.DirectWalk(U.StoreOf(id, CallsOf(ops)), va)
    ensures !InHeapGigabyte(va) ==> Walk(mems[|ops|], L0_BASE_PHYS, va) == Walk(mems[0], L0_BASE_PHYS, va)
  {
    var mem, counts := mems[|ops|], CountsOf(ops);
    RunHolds(l2Start, mems, ops, id);
    U.WalkIsDirect(mem, U.Root(id), U.StoreOf(id, CallsOf(ops)), va);
    if K.Represents(mem, l2Start, K.Run(counts).history) {
      K.KmallocIsStable(mem, l2Start, counts);
    } else {
      K.RunMapsInOrder(counts);
    }
    if !InHeapGigabyte(va) {
      OthersStay(l2Start, mems, ops, id, va);
    }
  }

  lemma {:induction false} OthersStay(l2Start: int, mems: seq<Memory>, ops: seq<Op>, id: int, va: nat)
    requires Layout(l2Start) && IsRun(l2Start, mems, ops) && Holds(l2Start, mems[0], K.Heap(0, []), [], id)
    requires !InHeapGigabyte(va)
    ensures Walk(mems[|ops|], L0_BASE_PHYS, va) == Walk(mems[0], L0_BASE_PHYS, va)
    decreases |ops|
  {
    if ops != [] {
      var k := |ops| - 1;
      var before, prefix, op := ops[..k], mems[..k + 1], ops[k];
      ShorterRun(l2Start, mems, ops, k);
      OthersStay(l2Start, prefix, before, id, va);
      RunHolds(l2Start, prefix, before, id);
      OneStays(l2Start, mems[k], K.Run(CountsOf(before)), op, mems[|ops|], va);
    }
  }

  lemma OneStays(l2Start: int, mem: Memory, h: K.Heap, op: Op, mem': Memory, va: nat)
    requires Layout(l2Start) && TopTables(mem) && OpStep(l2Start, mem, h, op, mem') && !InHeapGigabyte(va)
    ensures Walk(mem', L0_BASE_PHYS, va) == Walk(mem, L0_BASE_PHYS, va)
  {
    match op
    case Alloc(_) => K.OtherTranslationsStay(mem, mem', l2Start, va);
    case Map(c) =>
      CallStaysAbove(mem, c);
      SameUpperTables(mem, mem');
      WalkByGigabyte(mem, va);
      WalkByGigabyte(mem', va);
      assert Entry(mem', L2_BASE_PHYS, CalcIndexL2(va)) == Entry(mem, L2_BASE_PHYS, CalcIndexL2(va));
  }

  // ----- init_task -----

  /** The state of the kernel's memory between operations, as kmalloc and the mapping calls
      know it: `calls` are the mapping calls so far, id any process. */
  ghost predicate Between(heap: K.Allocator, calls: seq<U.Call>, id: int)
    reads heap, heap.pages, heap.pages.buffer, heap.mapper, heap.mapper.mmu
  {
    && heap.Valid() && TopTables(heap.mapper.mmu.mem)
    && U.Represents(heap.mapper.mmu.mem, U.Root(id), U.StoreOf(id, calls))
  }

  method Allocate(heap: K.Allocator, size: nat, ghost calls: seq<U.Call>, ghost id: int) returns (va: nat)
    requires Between(heap, calls, id) && PagesFor(size) <= 64
    modifies heap, heap.pages.buffer, heap.mapper, heap.mapper.mmu`mem, heap.mapper.mmu`tablesReady
    ensures Between(heap, calls, id)
    ensures heap.Abstract() == K.Allocated(old(heap.Abstract()), PagesFor(size))
    ensures old(heap.used) + PagesFor(size) <= SCANNED_PAGES ==> va == HIGH + K.PagePa(old(heap.used))
    ensures OpStep(heap.mapper.mmu.l2Start, old(heap.mapper.mmu.mem), old(heap.Abstract()), Alloc(PagesFor(size)),
                   heap.mapper.mmu.mem)
  {
    ghost var mem := heap.mapper.mmu.mem;
    va := heap.Kmalloc(size);
    K.HeapKeepsTop(mem, heap.mapper.mmu.mem, heap.mapper.mmu.l2Start, heap.mapper.history);
    AllocKeepsUser(mem, heap.mapper.mmu.mem, heap.mapper.mmu.l2Start, id, U.StoreOf(id, calls));
  }

  method MapPages(heap: K.Allocator, c: U.Call, ghost calls: seq<U.Call>, ghost id: int)
    requires Between(heap, calls, id) && c.address < U.U64
    modifies heap.mapper.mmu`mem
    ensures Between(heap, calls + [c], id) && heap.Abstract() == old(heap.Abstract())
    ensures OpStep(heap.mapper.mmu.l2Start, old(heap.mapper.mmu.mem), old(heap.Abstract()), Map(c),
                   heap.mapper.mmu.mem)
  {
    ghost var mem := heap.mapper.mmu.mem;
    U.MapUser(heap.mapper.mmu, c);
    CallKeepsBetween(mem, c, heap.mapper.mmu.l2Start, heap.mapper.history, calls, id);
  }

  lemma CallKeepsBetween(mem: Memory, c: U.Call, l2Start: int, history: seq<nat>, calls: seq<U.Call>, id: int)
    requires Layout(l2Start) && TopTables(mem) && U.Represents(mem, U.Root(id), U.StoreOf(id, calls))
    ensures TopTables(U.CallMem(mem, c))
    ensures U.Represents(U.CallMem(mem, c), U.Root(id), U.StoreOf(id, calls + [c]))
    ensures K.Represents(mem, l2Start, history) ==> K.Represents(U.CallMem(mem, c), l2Start, history)
    ensures K.Unlinked(mem, l2Start) ==> K.Unlinked(U.CallMem(mem, c), l2Start)
  {
    CallStaysAbove(mem, c);
    SameUpperTables(mem, U.CallMem(mem, c));
    SameHeapTables(mem, U.CallMem(mem, c), l2Start, history);
    U.CallRepresents(mem, c, id, U.StoreOf(id, calls));
    assert (calls + [c])[..|calls|] == calls;
  }

  /** The mapping calls of one init_task. */
  function InitCalls(id: int, sysWrite: nat, uartPrintf: nat, ustack: nat, entry: nat): seq<U.Call> {
    [U.Call(id, sysWrite, true), U.Call(id, uartPrintf, true), U.Call(id, ustack, false), U.Call(id, entry, true)]
  }

  /** The memory side of init_task, with the addresses of the two library functions, the
      sizes of a Task and of the stacks, and the entry point as parameters. */
  method InitTask(heap: K.Allocator, id: int, sysWrite: nat, uartPrintf: nat, entry: nat,
                  taskSize: nat, stackSize: nat, ghost calls: seq<U.Call>, ghost p: int)
    returns (task: nat, kstack: nat, ustack: nat)
    requires Between(heap, calls, p) && sysWrite < U.U64 && uartPrintf < U.U64
    requires PagesFor(taskSize) <= 64 && PagesFor(stackSize) <= 64
    modifies heap, heap.pages.buffer, heap.mapper, heap.mapper.mmu`mem, heap.mapper.mmu`tablesReady
    ensures Between(heap, calls + InitCalls(id, sysWrite, uartPrintf, ustack, KernalToUserSpace(entry)), p)
    ensures heap.Abstract() == AfterInit(old(heap.Abstract()), taskSize, stackSize)
    ensures Fits(old(heap.used), taskSize, stackSize) ==>
              Placed(old(heap.used), taskSize, stackSize, task, kstack, ustack)
  {
    var library := [U.Call(id, sysWrite, true), U.Call(id, uartPrintf, true)];
    MapTwo(heap, library[0], library[1], calls, p);
    task, kstack, ustack := TakeThree(heap, taskSize, stackSize, calls + library, p);
    var own := [U.Call(id, ustack, false), U.Call(id, KernalToUserSpace(entry), true)];
    MapTwo(heap, own[0], own[1], calls + library, p);
    assert calls + library + own == calls + InitCalls(id, sysWrite, uartPrintf, ustack, KernalToUserSpace(entry));
  }

  /** What a task sees of init_task's mappings, whatever was mapped before: the ten pages from
      its entry point reach themselves within their 2 MiB block, and its stack page does if
      and only if none of them has its bits 20:12. */
  lemma TaskReachesItsPages(mem: Memory, calls: seq<U.Call>, id: int, sysWrite: nat, uartPrintf: nat, ustack: nat,
                            entry: nat, i: nat)
    requires U.Represents(mem, U.Root(id), U.StoreOf(id, calls + InitCalls(id, sysWrite, uartPrintf, ustack, entry)))
    requires ustack < U.U64 && i < 10
    ensures var w := U.RunAddress(entry, i);
      U.SameBlock(w, entry) ==> Walk(mem, U.Root(id), w) == To(w % VA48, true)
    ensures Walk(mem, U.Root(id), ustack) == To(ustack % VA48, true) <==>
      forall j :: 0 <= j < 10 ==> U.NotTaken(ustack, U.RunAddress(entry, j))
  {
    var all := calls + InitCalls(id, sysWrite, uartPrintf, ustack, entry);
    var library := calls + [U.Call(id, sysWrite, true), U.Call(id, uartPrintf, true)];
    assert all == library + [U.Call(id, ustack, false), U.Call(id, entry, true)];
    U.RunMappedLast(library, id, ustack, entry, i);
    U.WalkIsDirect(mem, U.Root(id), U.StoreOf(id, all), U.RunAddress(entry, i));
    U.WalkIsDirect(mem, U.Root(id), U.StoreOf(id, all), ustack);
  }

  /** And of the two library functions it calls: page i of sys_write or of uart_printf reaches
      itself if and only if its indices are installed and the last page mapped after its run
      with its bits 20:12, if there is one, is the same page. */
  lemma TaskReachesItsLibrary(mem: Memory, calls: seq<U.Call>, id: int, sysWrite: nat, uartPrintf: nat, ustack: nat,
                              entry: nat, i: nat)
    requires U.Represents(mem, U.Root(id), U.StoreOf(id, calls + InitCalls(id, sysWrite, uartPrintf, ustack, entry)))
    requires ustack < U.U64 && i < 10
    ensures var all := calls + InitCalls(id, sysWrite, uartPrintf, ustack, entry);
      var s := U.RunAddress(sysWrite, i);
      Walk(mem, U.Root(id), s) == To(s % VA48, true) <==>
      U.Installed(id, all, s) && U.Survives(s, U.RunOf(uartPrintf, 10) + [ustack] + U.RunOf(entry, 10))
    ensures var all := calls + InitCalls(id, sysWrite, uartPrintf, ustack, entry);
      var p := U.RunAddress(uartPrintf, i);
      Walk(mem, U.Root(id), p) == To(p % VA48, true) <==>
      U.Installed(id, all, p) && U.Survives(p, [ustack] + U.RunOf(entry, 10))
  {
    var all := calls + InitCalls(id, sysWrite, uartPrintf, ustack, entry);
    var first, a, b, rest := U.Writes(id, calls), U.RunOf(sysWrite, 10), U.RunOf(uartPrintf, 10), U.RunOf(entry, 10);
    U.WritesOfFour(calls, id, sysWrite, uartPrintf, ustack, entry);
    Reassociate(first, a, b, [ustack], rest);
    U.RunBeforeOthers(id, all, first, sysWrite, b + [ustack] + rest, i);
    U.RunBeforeOthers(id, all, first + a, uartPrintf, [ustack] + rest, i);
    U.WalkIsDirect(mem, U.Root(id), U.StoreOf(id, all), U.RunAddress(sysWrite, i));
    U.WalkIsDirect(mem, U.Root(id), U.StoreOf(id, all), U.RunAddress(uartPrintf, i));
  }

  lemma Reassociate(first: seq<nat>, a: seq<nat>, b: seq<nat>, u: seq<nat>, rest: seq<nat>)
    ensures first + a + b + u + rest == first + a + (b + u + rest)
    ensures first + a + b + u + rest == (first + a) + b + (u + rest)
  {
  }

  /** Their own calls install the indices of the pages in the first page's 2 MiB block. */
  lemma LibraryIsInstalled(calls: seq<U.Call>, id: int, sysWrite: nat, uartPrintf: nat, ustack: nat, entry: nat,
                           v: nat)
    requires U.SameBlock(v, sysWrite) || U.SameBlock(v, uartPrintf)
    ensures U.Installed(id, calls + InitCalls(id, sysWrite, uartPrintf, ustack, entry), v)
  {
    var all := calls + InitCalls(id, sysWrite, uartPrintf, ustack, entry);
    var n := if U.SameBlock(v, sysWrite) then |calls| else |calls| + 1;
    assert all[n] == U.Call(id, if U.SameBlock(v, sysWrite) then sysWrite else uartPrintf, true);
    U.SameBlockSameIndices(v, all[n].address);
  }

  method MapTwo(heap: K.Allocator, c: U.Call, e: U.Call, ghost calls: seq<U.Call>, ghost p: int)
    requires Between(heap, calls, p) && c.address < U.U64 && e.address < U.U64
    modifies heap.mapper.mmu`mem
    ensures Between(heap, calls + [c, e], p) && heap.Abstract() == old(heap.Abstract())
  {
    MapPages(heap, c, calls, p);
    MapPages(heap, e, calls + [c], p);
    AppendTwo(calls, c, e);
  }

  lemma AppendTwo(calls: seq<U.Call>, c: U.Call, e: U.Call)
    ensures calls + [c] + [e] == calls + [c, e]
  {
  }

  method TakeThree(heap: K.Allocator, taskSize: nat, stackSize: nat, ghost calls: seq<U.Call>, ghost p: int)
    returns (task: nat, kstack: nat, ustack: nat)
    requires Between(heap, calls, p) && PagesFor(taskSize) <= 64 && PagesFor(stackSize) <= 64
    modifies heap, heap.pages.buffer, heap.mapper, heap.mapper.mmu`mem, heap.mapper.mmu`tablesReady
    ensures Between(heap, calls, p) && ustack < VA48
    ensures heap.Abstract() == AfterInit(old(heap.Abstract()), taskSize, stackSize)
    ensures Fits(old(heap.used), taskSize, stackSize) ==>
              Placed(old(heap.used), taskSize, stackSize, task, kstack, ustack)
  {
    ghost var fits, first := Fits(heap.used, taskSize, stackSize), heap.used;
    ghost var second := first + PagesFor(taskSize);
    ghost var third := second + PagesFor(stackSize);
    task := Allocate(heap, taskSize, calls, p);
    assert fits ==> task == HIGH + K.PagePa(first) && heap.used == second;
    kstack := Allocate(heap, stackSize, calls, p);
    assert fits ==> kstack == HIGH + K.PagePa(second) && heap.used == third;
    ustack := Allocate(heap, stackSize, calls, p);
    if fits {
      HighAlias(K.PagePa(third));
    }
    ustack := KernalToUserSpace(ustack);
  }

  function AfterInit(h: K.Heap, taskSize: nat, stackSize: nat): K.Heap {
    K.Allocated(K.Allocated(K.Allocated(h, PagesFor(taskSize)), PagesFor(stackSize)), PagesFor(stackSize))
  }

  predicate Fits(used: nat, taskSize: nat, stackSize: nat) {
    used + PagesFor(taskSize) + 2 * PagesFor(stackSize) <= SCANNED_PAGES
  }

  /** The three allocations lie one behind the other; the user gets the low alias of its stack. */
  predicate Placed(used: nat, taskSize: nat, stackSize: nat, task: nat, kstack: nat, ustack: nat) {
    && task == HIGH + K.PagePa(used)
    && kstack == HIGH + K.PagePa(used + PagesFor(taskSize))
    && ustack == K.PagePa(used + PagesFor(taskSize) + PagesFor(stackSize))
  }

  /** The task's first entry: its initial context names the tables that its mapping calls have
      filled (0x80A0_0000 for process 1, 0x80A6_0000 for any other), so with the TTBR0 it
      runs under it walks exactly its own store, whoever else has mapped what. */
  method EnterTask(cpu: Cpu, ctx: int, id: int, entry: int, ustack: int, ghost mem: Memory, ghost calls: seq<U.Call>,
                   ghost va: nat)
    requires |cpu.x| == 31 && U.Represents(mem, U.Root(id), U.StoreOf(id, calls))
    modifies cpu
    ensures cpu.ttbr0 == if id == 1 then 0x80A0_0000 else 0x80A6_0000
    ensures cpu.pc == entry && cpu.spEl0 == ustack && cpu.pstate == 0
    ensures Walk(mem, cpu.ttbr0, va) == U.DirectWalk(U.StoreOf(id, calls), va)
    ensures Walk(mem, cpu.ttbr0, va) == To(va % VA48, true) <==>
      U.Installed(id, calls, va) &&
      exists w: nat :: U.LastWith(U.Writes(id, calls), CalcIndexL3(va), w) && U.SamePage(w, va)
  {
    var table := if id == 1 then USER_PROCESS_1_TABLE_START else U.USER_PROCESS_2_TABLE_START;
    cpu.BuildInitialContext(ctx, entry, ustack, table);
    cpu.FirstUserEnter(ctx);
    U.WalkIsDirect(mem, U.Root(id), U.StoreOf(id, calls), va);
    U.LookupToItself(calls, id, va);
  }
}
