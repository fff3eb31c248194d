/** Timer preemption of any number of user tasks: the exception entries of vectors.s, the
    dispatcher of handlers.c and the tick of sched.c together, over whole runs. */
module Preemption {
  import opened RoundRobin
  import opened Scheduler
  import opened Translation
  import opened ContextSwitch

  const IRQ_VTIMER := 27
  const SVC_CLASS: int := 0x15

  /** The CPU at EL0, and the memory. */
  datatype Machine = Machine(user: UserState, sp: int, mem: Memory)

  /** Between two exceptions: the machine, and the ready queue with the running task first. */
  datatype System = System(m: Machine, queue: seq<Slot>)

  /** Top of each task's kernel stack, by task id. */
  type Stacks = map<int, int>

  /** Where init_task puts the task's Context. */
  function FrameOf(tops: Stacks, id: int): int
    requires id in tops
  {
    tops[id] - SIZEOF_CONTEXT
  }

  ghost predicate FramesKept(tops: Stacks, mem: Memory, mem': Memory) {
    forall id :: id in tops ==> SameFrame(mem, mem', FrameOf(tops, id))
  }

  /** A C handler writes no saved frame. */
  ghost predicate KeepsFrames(tops: Stacks, handler: Memory -> Memory) {
    forall m :: FramesKept(tops, m, handler(m))
  }

  ghost predicate DisjointStacks(tops: Stacks) {
    forall a, b :: a in tops && b in tops && a != b ==>
      tops[a] + SIZEOF_CONTEXT <= tops[b] || tops[b] + SIZEOF_CONTEXT <= tops[a]
  }

  // ----- The code -----

  /** check_current_el: SPSR_EL1 says that the interrupt came from EL1. */
  predicate FromEl1(spsr: int) {
    (spsr / 4) % 4 == 1
  }

  /** irq_dispatcher: a timer interrupt reaches the scheduler unless it came from EL1; every
      other interrupt goes back to the frame it came with. */
  method IrqDispatcher(cpu: Cpu, rq: RunQueue, irq: int, tf: int) returns (context: int)
    requires rq.Started()
    modifies rq, rq.queue
    ensures rq.Started()
    ensures irq == 27 && (cpu.spsr / 4) % 4 != 1 ==>
              rq.View() == Tick(old(rq.View()), tf) && context == rq.View()[0].context
    ensures irq != 27 || (cpu.spsr / 4) % 4 == 1 ==>
              rq.View() == old(rq.View()) && rq.queue == old(rq.queue) && context == tf
  {
    context := tf;
    if irq == IRQ_VTIMER {
      var el := FromEl1(cpu.spsr);
      if !el {
        context := rq.ScheduleOnTick(tf);
      }
    }
  }

  /** el1_irq_entry. `clobbered` and `handler` are what the C code called from it leaves in
      the registers and in memory. */
  method El1IrqEntry(cpu: Cpu, rq: RunQueue, irq: int, vector: int, clobbered: seq<int>,
                     handler: Memory -> Memory, ghost tops: Stacks)
    requires rq.Started() && WellFormed(cpu.User()) && |clobbered| == 31
    requires KeepsFrames(tops, handler)
    modifies cpu, rq, rq.queue
    ensures rq.Started()
    ensures Step(tops, old(SystemOf(cpu, rq)), Irq(irq), SystemOf(cpu, rq))
  {
    ghost var s := SystemOf(cpu, rq);
    Enter(cpu, vector, rq);
    ghost var saved, f := cpu.mem, cpu.sp;
    var context := Dispatch(cpu, rq, irq, cpu.sp);
    var after := handler(cpu.mem);
    Resume(cpu, context, clobbered, after, rq);
    EntryIsStep(tops, s, Irq(irq), saved, f, handler, SystemOf(cpu, rq));
  }

  /** The dispatcher for an interrupt from EL0. */
  method Dispatch(cpu: Cpu, rq: RunQueue, irq: int, f: int) returns (context: int)
    requires rq.Started() && (cpu.spsr / 4) % 4 == 0
    modifies rq, rq.queue
    ensures rq.Started()
    ensures old(rq.View()) != [] && rq.View() == QueueAfter(old(rq.View()), Irq(irq), f)
    ensures context == ContextAfter(old(rq.View()), Irq(irq), f)
  {
    context := IrqDispatcher(cpu, rq, irq, f);
  }

  /** From the exception to the call of the C handler, which finds TTBR0 in x0. */
  method Enter(cpu: Cpu, vector: int, ghost rq: RunQueue)
    requires |cpu.x| == 31
    modifies cpu
    ensures cpu.sp == old(cpu.sp) - CTX_SIZE
    ensures SavedAs(old(cpu.mem), cpu.mem, cpu.sp, old(cpu.User()))
    ensures cpu.x == old(cpu.x)[0 := old(cpu.ttbr0)] && cpu.ttbr0 == old(cpu.ttbr0)
    ensures cpu.elr == old(cpu.pc) && cpu.spsr == old(cpu.pstate)
    ensures rq.View() == old(rq.View()) && rq.Started() == old(rq.Started())
  {
    cpu.TakeException(vector);
    cpu.SaveContext();
  }

  /** From the return of the C handler to EL0. */
  method Resume(cpu: Cpu, context: int, clobbered: seq<int>, after: Memory, ghost rq: RunQueue)
    requires |clobbered| == 31
    modifies cpu
    ensures cpu.User() == Frame(after, context)
    ensures cpu.sp == context + CTX_SIZE && cpu.mem == after && cpu.elr == cpu.pc && cpu.spsr == cpu.pstate
    ensures rq.View() == old(rq.View()) && rq.Started() == old(rq.Started())
  {
    cpu.ResumeFrom(context, clobbered, after);
  }

  // ----- Interrupts in EL1 -----

  /** el1_irq_entry for an interrupt that C code in EL1 takes after it has unmasked them:
      no interrupt makes a tick, changes a slice or records a context, and the C code goes on
      in its own registers. `saved` is the memory the handler finds. The frame's TTBR0
      word is the doubleword at the interrupted stack pointer, so the C code's own stack
      is kept if and only if that doubleword already was TTBR0. ELR_EL1 and SPSR_EL1 are left
      as this return needs them, whatever an outer return had put there. */
  method NestedIrq(cpu: Cpu, rq: RunQueue, irq: int, vector: int, clobbered: seq<int>, handler: Memory -> Memory)
    returns (ghost saved: Memory)
    requires rq.Started() && |cpu.x| == 31 && (cpu.pstate / 4) % 4 == 1 && |clobbered| == 31
    requires forall m :: SameFrame(m, handler(m), cpu.sp - 272)
    modifies cpu, rq, rq.queue
    ensures rq.Started() && rq.View() == old(rq.View()) && rq.queue == old(rq.queue)
    ensures cpu.User() == old(cpu.User()) && cpu.sp == old(cpu.sp) && cpu.mem == handler(saved)
    ensures cpu.elr == old(cpu.pc) && cpu.spsr == old(cpu.pstate)
    ensures forall a :: !(cpu.sp - 272 <= a < cpu.sp + 8) ==> Read(saved, a) == Read(old(cpu.mem), a)
    ensures Read(saved, cpu.sp) == cpu.ttbr0
    ensures StackKept(old(cpu.mem), saved, cpu.sp) <==> Read(old(cpu.mem), cpu.sp) == cpu.ttbr0
  {
    Enter(cpu, vector, rq);
    saved := cpu.mem;
    var context := IrqDispatcher(cpu, rq, irq, cpu.sp);
    var after := handler(cpu.mem);
    SameFrameSameState(saved, after, context);
    Resume(cpu, context, clobbered, after, rq);
  }

  /** The doublewords from sp up. */
  ghost predicate StackKept(mem: Memory, mem': Memory, sp: int) {
    forall a :: a >= sp && (a - sp) % 8 == 0 ==> Read(mem', a) == Read(mem, a)
  }

  /** One interrupt during a system call: `work` is what the C code did to memory up to
      then, the next four fields where it stood. */
  datatype Interruption = Interruption(
    irq: int,
    x: seq<int>,
    sp: int,
    pc: int,
    pstate: int,
    clobbered: seq<int>,
    work: Memory -> Memory,
    handler: Memory -> Memory)

  /** The interrupt is taken in EL1, with a stack below or between the tasks' frames. */
  ghost predicate InEl1(tops: Stacks, i: Interruption) {
    && |i.x| == |i.clobbered| == 31 && (i.pstate / 4) % 4 == 1
    && KeepsFrames(tops, i.work) && KeepsFrames(tops, i.handler)
    && (forall m :: SameFrame(m, i.handler(m), i.sp - 272))
    && (forall id :: id in tops ==> i.sp + 8 <= FrameOf(tops, id) || FrameOf(tops, id) + 280 <= i.sp - 272)
  }

  ghost predicate AllInEl1(tops: Stacks, taken: seq<Interruption>) {
    forall k :: 0 <= k < |taken| ==> InEl1(tops, taken[k])
  }

  function Irqs(taken: seq<Interruption>): seq<int> {
    seq(|taken|, k requires 0 <= k < |taken| => taken[k].irq)
  }

  /** The C code of a system call up to its last interrupt. */
  method Interrupts(cpu: Cpu, rq: RunQueue, vector: int, taken: seq<Interruption>, ghost tops: Stacks)
    requires rq.Started() && AllInEl1(tops, taken)
    modifies cpu, rq, rq.queue
    ensures rq.Started() && rq.View() == old(rq.View()) && rq.queue == old(rq.queue)
    ensures FramesKept(tops, old(cpu.mem), cpu.mem)
    decreases |taken|
  {
    if taken != [] {
      var i := taken[|taken| - 1];
      ghost var start := cpu.mem;
      Interrupts(cpu, rq, vector, taken[..|taken| - 1], tops);
      ghost var before := cpu.mem;
      cpu.x, cpu.sp, cpu.pc, cpu.pstate, cpu.mem := i.x, i.sp, i.pc, i.pstate, i.work(cpu.mem);
      ghost var was := cpu.mem;
      ghost var saved := NestedIrq(cpu, rq, i.irq, vector, i.clobbered, i.handler);
      KeptThroughout(tops, start, before, was, saved, cpu.mem, i);
    }
  }

  lemma KeptThroughout(tops: Stacks, start: Memory, before: Memory, was: Memory, saved: Memory, end: Memory,
                       i: Interruption)
    requires InEl1(tops, i) && FramesKept(tops, start, before) && was == i.work(before) && end == i.handler(saved)
    requires forall a :: !(i.sp - 272 <= a < i.sp + 8) ==> Read(saved, a) == Read(was, a)
    ensures FramesKept(tops, start, end)
  {
    assert FramesKept(tops, before, was) && FramesKept(tops, saved, end);
    forall id | id in tops ensures SameFrame(start, end, FrameOf(tops, id)) {
      var f := FrameOf(tops, id);
      assert SameFrame(start, before, f) && SameFrame(before, was, f) && SameFrame(saved, end, f);
    }
  }

  /** An interrupt between the dispatcher's return and the restore, with the stack pointer
      at the task's own frame, replaces the task's x0 by its TTBR0, and nothing else. */
  lemma InterruptAtFrame(mem: Memory, saved: Memory, f: int, u: UserState)
    requires Frame(mem, f) == u && Read(saved, f) == u.ttbr0
    requires forall a :: !(f - 272 <= a < f + 8) ==> Read(saved, a) == Read(mem, a)
    ensures Frame(saved, f) == u.(x := u.x[0 := u.ttbr0])
    ensures Frame(saved, f) == u <==> u.x[0] == u.ttbr0
  {
    assert Frame(saved, f).x == u.x[0 := u.ttbr0];
  }

  /** el0_sync_entry, with the interrupts `taken` during the system call: the caller goes
      on in its own state and nothing is scheduled. `args` is what the dispatcher finds in
      the registers: the system call's number in x7, but TTBR0 in place of the caller's x0.
      The dispatcher's result is in x0 when it returns, and the restore then overwrites x0
      with the value saved on entry. */
  method El0SyncEntry(cpu: Cpu, rq: RunQueue, esr: nat, vector: int, clobbered: seq<int>, result: int,
                      taken: seq<Interruption>, handler: Memory -> Memory, ghost tops: Stacks, ghost id: int)
    returns (ghost args: seq<int>)
    requires WellFormed(cpu.User()) && |clobbered| == 31 && rq.Started()
    requires id in tops && cpu.sp == tops[id] - 16
    requires KeepsFrames(tops, handler) && AllInEl1(tops, taken)
    modifies cpu, rq, rq.queue
    ensures rq.Started() && rq.View() == old(rq.View())
    ensures esr / 0x400_0000 == 0x15 ==>
      && args == old(cpu.x)[0 := old(cpu.ttbr0)][10 := esr][11 := 0x15][7 := old(cpu.x[8])]
      && cpu.User() == old(cpu.User()) && cpu.sp == old(cpu.sp)
      && Step(tops, old(SystemOf(cpu, rq)), Svc(Irqs(taken)), SystemOf(cpu, rq))
    ensures esr / 0x400_0000 != 0x15 ==> cpu.pc == old(cpu.pc) && cpu.sp == old(cpu.sp) - CTX_SIZE
  {
    ghost var s := SystemOf(cpu, rq);
    Enter(cpu, vector, rq);
    var svc := Decode(cpu, esr, rq);
    args := cpu.x;
    if svc {
      ghost var saved, f := cpu.mem, cpu.sp;
      CallAndReturn(cpu, rq, vector, clobbered[0 := result], taken, handler, tops);
      SvcIsStep(tops, s, Irqs(taken), saved, f, SystemOf(cpu, rq), id);
    } else {
      cpu.pc, cpu.pstate := cpu.elr, cpu.spsr;
    }
  }

  /** The exception class, and for a system call its number in x7. */
  method Decode(cpu: Cpu, esr: nat, ghost rq: RunQueue) returns (svc: bool)
    requires |cpu.x| == 31
    modifies cpu`x
    ensures svc <==> esr / 0x400_0000 == 0x15
    ensures svc ==> cpu.x == old(cpu.x)[10 := esr][11 := 0x15][7 := old(cpu.x[8])]
    ensures rq.View() == old(rq.View()) && rq.Started() == old(rq.Started())
  {
    cpu.x := cpu.x[10 := esr];
    cpu.x := cpu.x[11 := cpu.x[10] / 0x400_0000];
    svc := cpu.x[11] == SVC_CLASS;
    if svc {
      cpu.x := cpu.x[7 := cpu.x[8]];
    }
  }

  /** From the call of the dispatcher to EL0. */
  method CallAndReturn(cpu: Cpu, rq: RunQueue, vector: int, clobbered: seq<int>, taken: seq<Interruption>,
                       handler: Memory -> Memory, ghost tops: Stacks)
    requires rq.Started() && |clobbered| == 31
    requires KeepsFrames(tops, handler) && AllInEl1(tops, taken)
    modifies cpu, rq, rq.queue
    ensures rq.Started() && rq.View() == old(rq.View())
    ensures FramesKept(tops, old(cpu.mem), cpu.mem)
    ensures cpu.User() == Frame(cpu.mem, old(cpu.sp)) && cpu.sp == old(cpu.sp) + CTX_SIZE
  {
    var frame := cpu.sp;
    ghost var start := cpu.mem;
    Interrupts(cpu, rq, vector, taken, tops);
    ghost var last := cpu.mem;
    var after := handler(cpu.mem);
    assert FramesKept(tops, last, after);
    KeptTwice(tops, start, last, after);
    Resume(cpu, frame, clobbered, after, rq);
  }

  lemma KeptTwice(tops: Stacks, a: Memory, b: Memory, c: Memory)
    requires FramesKept(tops, a, b) && FramesKept(tops, b, c)
    ensures FramesKept(tops, a, c)
  {
    forall id | id in tops ensures SameFrame(a, c, FrameOf(tops, id)) {
      assert SameFrame(a, b, FrameOf(tops, id)) && SameFrame(b, c, FrameOf(tops, id));
    }
  }

  ghost function SystemOf(cpu: Cpu, rq: RunQueue): System
    reads cpu, rq`queue, rq.queue
  {
    System(Machine(cpu.User(), cpu.sp, cpu.mem), rq.View())
  }

  // ----- One event of a run -----

  datatype Event =
    | User(user: UserState)   // the running task computes; it cannot write TTBR0
    | Irq(irq: int)           // any interrupt taken from EL0
    | Svc(irqs: seq<int>)     // a system call, with the interrupts taken during it

  ghost predicate SavedAs(mem: Memory, saved: Memory, f: int, u: UserState) {
    Frame(saved, f) == u && SameOutsideFrame(mem, saved, f)
  }

  /** From the memory s had to the memory after the exception: the interrupted state is
      saved below sp, then the handler changes anything but the frames. */
  ghost predicate EntryMemory(tops: Stacks, s: System, saved: Memory, after: Memory) {
    && SavedAs(s.m.mem, saved, s.m.sp - CTX_SIZE, s.m.user)
    && FramesKept(tops, saved, after)
  }

  function QueueAfter(queue: seq<Slot>, e: Event, f: int): (q: seq<Slot>)
    requires queue != []
    ensures q != []
  {
    if e == Irq(IRQ_VTIMER) then Tick(queue, f) else queue
  }

  function ContextAfter(queue: seq<Slot>, e: Event, f: int): int
    requires queue != []
  {
    if e == Irq(IRQ_VTIMER) then Tick(queue, f)[0].context else f
  }

  ghost predicate Step(tops: Stacks, s: System, e: Event, t: System)
    requires s.queue != []
  {
    match e
    case User(u) =>
      && WellFormed(u) && u.ttbr0 == s.m.user.ttbr0
      && FramesKept(tops, s.m.mem, t.m.mem)
      && t == System(Machine(u, s.m.sp, t.m.mem), s.queue)
    case _ =>
      var f := s.m.sp - CTX_SIZE;
      var context := ContextAfter(s.queue, e, f);
      && (exists saved :: EntryMemory(tops, s, saved, t.m.mem))
      && t == System(Machine(Frame(t.m.mem, context), context + CTX_SIZE, t.m.mem), QueueAfter(s.queue, e, f))
  }

  lemma EntryIsStep(tops: Stacks, s: System, e: Event, saved: Memory, f: int, handler: Memory -> Memory, t: System)
    requires !e.User? && s.queue != [] && f == s.m.sp - CTX_SIZE
    requires SavedAs(s.m.mem, saved, f, s.m.user) && KeepsFrames(tops, handler) && t.m.mem == handler(saved)
    requires t.queue == QueueAfter(s.queue, e, f)
    requires var context := ContextAfter(s.queue, e, f);
      t.m.user == Frame(t.m.mem, context) && t.m.sp == context + CTX_SIZE
    ensures Step(tops, s, e, t)
  {
    assert EntryMemory(tops, s, saved, t.m.mem);
  }

  lemma SvcIsStep(tops: Stacks, s: System, irqs: seq<int>, saved: Memory, f: int, t: System, id: int)
    requires s.queue != [] && id in tops && f == FrameOf(tops, id) == s.m.sp - CTX_SIZE
    requires SavedAs(s.m.mem, saved, f, s.m.user) && FramesKept(tops, saved, t.m.mem)
    requires t == System(Machine(Frame(t.m.mem, f), f + CTX_SIZE, t.m.mem), s.queue)
    ensures Step(tops, s, Svc(irqs), t) && t.m.user == s.m.user
  {
    assert EntryMemory(tops, s, saved, t.m.mem);
    SameFrameSameState(saved, t.m.mem, f);
  }

  // ----- What the tasks see: each has a CPU of its own -----

  datatype Tasks = Tasks(states: map<int, UserState>, queue: seq<Slot>)

  /** The running task's own computation changes its own state; nothing else changes any. */
  function PrivateStep(tops: Stacks, a: Tasks, e: Event): (b: Tasks)
    requires a.queue != [] && a.queue[0].id in tops
    ensures b.queue != []
  {
    var id := a.queue[0].id;
    if e.User? then a.(states := a.states[id := e.user])
    else a.(queue := QueueAfter(a.queue, e, FrameOf(tops, id)))
  }

  ghost predicate Known(tops: Stacks, a: Tasks) {
    && a.queue != []
    && (forall i, j :: 0 <= i < j < |a.queue| ==> a.queue[i].id != a.queue[j].id)
    && (forall j :: 0 <= j < |a.queue| ==>
          a.queue[j].id in tops && a.queue[j].id in a.states && WellFormed(a.states[a.queue[j].id]))
  }

  /** The one CPU shows the private state of the running task; every other task's private
      state is in its frame, at the top of its kernel stack. */
  ghost predicate Shows(tops: Stacks, s: System, a: Tasks) {
    && Known(tops, a)
    && s.queue == a.queue
    && s.m.user == a.states[a.queue[0].id]
    && s.m.sp == tops[a.queue[0].id] - 16
    && (forall j :: 1 <= j < |a.queue| ==> Parked(tops, s.m.mem, a, j))
  }

  ghost predicate Parked(tops: Stacks, mem: Memory, a: Tasks, j: int)
    requires 0 <= j < |a.queue| && a.queue[j].id in tops && a.queue[j].id in a.states
  {
    var id := a.queue[j].id;
    a.queue[j].context == FrameOf(tops, id) && Frame(mem, FrameOf(tops, id)) == a.states[id]
  }

  /** Entering the kernel parks the running task and leaves the parked ones alone. */
  lemma EntryParksAll(tops: Stacks, s: System, a: Tasks, saved: Memory, after: Memory)
    requires DisjointStacks(tops) && Shows(tops, s, a) && EntryMemory(tops, s, saved, after)
    ensures forall j :: 0 <= j < |a.queue| ==>
      Frame(after, FrameOf(tops, a.queue[j].id)) == a.states[a.queue[j].id]
  {
    var f := s.m.sp - CTX_SIZE;
    forall j | 0 <= j < |a.queue|
      ensures Frame(after, FrameOf(tops, a.queue[j].id)) == a.states[a.queue[j].id]
    {
      var id := a.queue[j].id;
      var g := FrameOf(tops, id);
      SameFrameSameState(saved, after, g);
      if j > 0 {
        assert Parked(tops, s.m.mem, a, j);
        assert SameFrame(s.m.mem, saved, g);
        SameFrameSameState(s.m.mem, saved, g);
      }
    }
  }

  lemma TickKeepsKnown(tops: Stacks, a: Tasks, f: int)
    requires Known(tops, a) && f == FrameOf(tops, a.queue[0].id)
    requires forall j :: 1 <= j < |a.queue| ==> a.queue[j].context == FrameOf(tops, a.queue[j].id)
    ensures var b := a.(queue := Tick(a.queue, f));
      Known(tops, b) && forall j :: 0 <= j < |b.queue| ==> b.queue[j].context == FrameOf(tops, b.queue[j].id)
  {
    var b := a.(queue := Tick(a.queue, f));
    var n := |a.queue|;
    forall j | 0 <= j < n
      ensures b.queue[j].id ==
        a.queue[if a.queue[0].slice - 1 > 0 then j else if j < n - 1 then j + 1 else 0].id
      ensures b.queue[j].context == FrameOf(tops, b.queue[j].id)
    {
    }
  }

  lemma UserStepShows(tops: Stacks, s: System, u: UserState, t: System, a: Tasks)
    requires Shows(tops, s, a) && Step(tops, s, User(u), t)
    ensures Shows(tops, t, PrivateStep(tops, a, User(u)))
  {
    var b := PrivateStep(tops, a, User(u));
    forall j | 1 <= j < |b.queue| ensures Parked(tops, t.m.mem, b, j) {
      assert Parked(tops, s.m.mem, a, j);
      SameFrameSameState(s.m.mem, t.m.mem, FrameOf(tops, a.queue[j].id));
    }
  }

  lemma TickStepShows(tops: Stacks, s: System, t: System, a: Tasks)
    requires DisjointStacks(tops) && Shows(tops, s, a) && Step(tops, s, Irq(IRQ_VTIMER), t)
    ensures Shows(tops, t, PrivateStep(tops, a, Irq(IRQ_VTIMER)))
  {
    var f := s.m.sp - CTX_SIZE;
    var b := a.(queue := Tick(a.queue, f));
    var saved :| EntryMemory(tops, s, saved, t.m.mem);
    EntryParksAll(tops, s, a, saved, t.m.mem);
    forall j | 1 <= j < |a.queue| ensures a.queue[j].context == FrameOf(tops, a.queue[j].id) {
      assert Parked(tops, s.m.mem, a, j);
    }
    TickKeepsKnown(tops, a, f);
    forall j | 0 <= j < |b.queue| ensures Parked(tops, t.m.mem, b, j) {
      var i := if a.queue[0].slice - 1 > 0 then j else if j < |a.queue| - 1 then j + 1 else 0;
      assert b.queue[j].id == a.queue[i].id;
    }
    assert Parked(tops, t.m.mem, b, 0);
  }

  lemma OtherEntryShows(tops: Stacks, s: System, e: Event, t: System, a: Tasks)
    requires !e.User? && e != Irq(IRQ_VTIMER)
    requires DisjointStacks(tops) && Shows(tops, s, a) && Step(tops, s, e, t)
    ensures Shows(tops, t, PrivateStep(tops, a, e))
  {
    var saved :| EntryMemory(tops, s, saved, t.m.mem);
    EntryParksAll(tops, s, a, saved, t.m.mem);
    forall j | 1 <= j < |a.queue| ensures Parked(tops, t.m.mem, a, j) {
      assert Parked(tops, s.m.mem, a, j);
    }
  }

  /** One event on the shared CPU is one event on the tasks' private CPUs. */
  lemma StepShows(tops: Stacks, s: System, e: Event, t: System, a: Tasks)
    requires DisjointStacks(tops) && Shows(tops, s, a) && Step(tops, s, e, t)
    ensures Shows(tops, t, PrivateStep(tops, a, e))
  {
    if e.User? {
      UserStepShows(tops, s, e.user, t, a);
    } else if e == Irq(IRQ_VTIMER) {
      TickStepShows(tops, s, t, a);
    } else {
      OtherEntryShows(tops, s, e, t, a);
    }
  }

  // ----- Whole runs -----

  ghost predicate IsRun(tops: Stacks, run: seq<System>, events: seq<Event>) {
    && |run| == |events| + 1
    && forall i :: 0 <= i < |events| ==> run[i].queue != [] && Step(tops, run[i], events[i], run[i + 1])
  }

  /** The private states and the queue after a run. (A queue that names no stack is left
      alone; no run of known tasks reaches one.) */
  function PrivateRun(tops: Stacks, a: Tasks, events: seq<Event>): Tasks
    decreases |events|
  {
    if events == [] then a
    else
      var b := PrivateRun(tops, a, events[..|events| - 1]);
      if b.queue != [] && b.queue[0].id in tops then PrivateStep(tops, b, events[|events| - 1]) else b
  }

  /** kmain enters the first task from its initial context, with all tasks' initial
      contexts in their frames. */
  lemma FirstEntryShows(tops: Stacks, a: Tasks, mem: Memory, s: System)
    requires Known(tops, a)
    requires forall j :: 0 <= j < |a.queue| ==> Parked(tops, mem, a, j)
    requires s == System(Machine(Frame(mem, a.queue[0].context), a.queue[0].context + CTX_SIZE, mem), a.queue)
    ensures Shows(tops, s, a)
  {
    assert Parked(tops, mem, a, 0);
  }

  /** The private states of two tasks that kmain has set up, whatever their pages held. */
  function Booted(queue: seq<Slot>, u1: UserState, u2: UserState): Tasks
    requires |queue| == 2
  {
    Tasks(map[queue[0].id := u1, queue[1].id := u2], queue)
  }

  /** From init_task to the first instruction of the first task: both initial contexts are
      built at the tops of their stacks, both tasks are enqueued, the first is made current
      and entered. A run in which each task has a CPU of its own starts here. */
  method Boot(cpu: Cpu, rq: RunQueue, task1: Task, task2: Task, top1: int, top2: int, u1: UserState, u2: UserState)
    requires |cpu.x| == 31 && rq.Valid() && rq.queue == []
    requires task1.id != task2.id && task1.next == null && task2.next == null
    requires DisjointStacks(map[task1.id := top1, task2.id := top2])
    requires u1.x == Frame(cpu.mem, top1 - SIZEOF_CONTEXT).x && u1.pstate == 0
    requires u2.x == Frame(cpu.mem, top2 - SIZEOF_CONTEXT).x && u2.pstate == 0
    modifies cpu, rq, task1, task2
    ensures task1.id == old(task1.id) && task2.id == old(task2.id)
    ensures rq.Started() && rq.queue == [task1, task2] && Fresh(rq.View())
    ensures Shows(map[task1.id := top1, task2.id := top2], SystemOf(cpu, rq), Booted(rq.View(), u1, u2))
  {
    ghost var tops := map[task1.id := top1, task2.id := top2];
    var ctx1, ctx2 := top1 - SIZEOF_CONTEXT, top2 - SIZEOF_CONTEXT;
    assert tops[task1.id] == top1 && tops[task2.id] == top2;
    BuildContexts(cpu, ctx1, ctx2, u1, u2);
    task1.context, task2.context := ctx1, ctx2;
    StartTwo(rq, task1, task2);
    cpu.FirstUserEnter(ctx1);
    BootedShows(tops, SystemOf(cpu, rq), Booted(rq.View(), u1, u2), ctx1, ctx2);
  }

  /** The two initial contexts. */
  method BuildContexts(cpu: Cpu, ctx1: int, ctx2: int, u1: UserState, u2: UserState)
    requires ctx1 + SIZEOF_CONTEXT <= ctx2 || ctx2 + SIZEOF_CONTEXT <= ctx1
    requires u1.x == Frame(cpu.mem, ctx1).x && u1.pstate == 0
    requires u2.x == Frame(cpu.mem, ctx2).x && u2.pstate == 0
    modifies cpu`mem
    ensures Frame(cpu.mem, ctx1) == u1 && Frame(cpu.mem, ctx2) == u2
  {
    ghost var was := cpu.mem;
    cpu.BuildInitialContext(ctx1, u1.pc, u1.spEl0, u1.ttbr0);
    ghost var first := cpu.mem;
    SameFrameSameState(was, first, ctx2);
    cpu.BuildInitialContext(ctx2, u2.pc, u2.spEl0, u2.ttbr0);
    SameFrameSameState(first, cpu.mem, ctx1);
  }

  lemma BootedShows(tops: Stacks, s: System, a: Tasks, ctx1: int, ctx2: int)
    requires |a.queue| == 2 && a.queue[0].id != a.queue[1].id && s.queue == a.queue
    requires a.queue[0].id in tops && a.queue[0].id in a.states && WellFormed(a.states[a.queue[0].id])
    requires a.queue[1].id in tops && a.queue[1].id in a.states && WellFormed(a.states[a.queue[1].id])
    requires a.queue[0].context == ctx1 == FrameOf(tops, a.queue[0].id)
    requires a.queue[1].context == ctx2 == FrameOf(tops, a.queue[1].id)
    requires Frame(s.m.mem, ctx1) == a.states[a.queue[0].id] && Frame(s.m.mem, ctx2) == a.states[a.queue[1].id]
    requires s.m.user == Frame(s.m.mem, ctx1) && s.m.sp == ctx1 + CTX_SIZE
    ensures Shows(tops, s, a)
  {
    FirstEntryShows(tops, a, s.m.mem, s);
  }

  /** Preemption transparency. However many tasks there are and whatever run of user
      computation, interrupts and system calls they make, the one CPU always shows the
      running task exactly the state it would have on a CPU of its own; every other
      task's exact state waits in a frame that never moves. */
  lemma {:induction false} PreemptionIsTransparent(tops: Stacks, run: seq<System>, events: seq<Event>, a: Tasks)
    requires DisjointStacks(tops) && IsRun(tops, run, events) && Shows(tops, run[0], a)
    ensures Shows(tops, run[|events|], PrivateRun(tops, a, events))
    decreases |events|
  {
    if events != [] {
      var k := |events| - 1;
      var before := events[..k];
      assert IsRun(tops, run[..k + 1], before) by {
        forall i | 0 <= i < k ensures Step(tops, run[i], before[i], run[i + 1]) {
          assert before[i] == events[i];
        }
      }
      PreemptionIsTransparent(tops, run[..k + 1], before, a);
      var b, s, t, e := PrivateRun(tops, a, before), run[k], run[|events|], events[k];
      assert Shows(tops, s, b);
      assert run[k + 1] == t;
      StepShows(tops, s, e, t, b);
      assert PrivateRun(tops, a, events) == PrivateStep(tops, b, e);
    }
  }

  /** Number of timer interrupts among the events. */
  function TimerTicks(events: seq<Event>): nat {
    if events == [] then 0
    else TimerTicks(events[..|events| - 1]) + (if events[|events| - 1] == Irq(IRQ_VTIMER) then 1 else 0)
  }

  /** The queue of any run is the round-robin queue after that many ticks. */
  lemma {:induction false} RunTicks(tops: Stacks, a: Tasks, events: seq<Event>) returns (frames: seq<int>)
    requires a.queue != [] && forall j :: 0 <= j < |a.queue| ==> a.queue[j].id in tops
    ensures |frames| == TimerTicks(events)
    ensures PrivateRun(tops, a, events).queue == Ticks(a.queue, frames)
    decreases |events|
  {
    if events == [] {
      frames := [];
    } else {
      var k := |events| - 1;
      var fs := RunTicks(tops, a, events[..k]);
      frames := fs;
      var b := PrivateRun(tops, a, events[..k]);
      TicksKeepIds(a.queue, fs);
      if events[k] == Irq(IRQ_VTIMER) {
        frames := fs + [FrameOf(tops, b.queue[0].id)];
        assert frames[..|frames| - 1] == fs;
      }
    }
  }

  ghost predicate Named(queue: seq<Slot>, id: int) {
    exists i :: 0 <= i < |queue| && queue[i].id == id
  }

  lemma {:induction false} TicksKeepIds(queue: seq<Slot>, frames: seq<int>)
    requires queue != []
    ensures |Ticks(queue, frames)| == |queue|
    ensures forall j :: 0 <= j < |queue| ==> Named(queue, Ticks(queue, frames)[j].id)
    decreases |frames|
  {
    var q := Ticks(queue, frames);
    if frames == [] {
      forall j | 0 <= j < |queue| ensures Named(queue, q[j].id) {
        assert q[j] == queue[j];
      }
    } else {
      var k := |frames| - 1;
      TicksKeepIds(queue, frames[..k]);
      var p := Ticks(queue, frames[..k]);
      forall j | 0 <= j < |queue| ensures Named(queue, q[j].id) {
        var m := if p[0].slice - 1 > 0 then j else if j < |p| - 1 then j + 1 else 0;
        assert q[j].id == p[m].id;
      }
    }
  }

  /** Which task the CPU shows: after any run with t timer interrupts it is the one at
      position (t / 10) mod n of the initial queue, with its own private state. */
  lemma RunningTaskAfter(tops: Stacks, run: seq<System>, events: seq<Event>, a: Tasks)
    requires DisjointStacks(tops) && IsRun(tops, run, events) && Shows(tops, run[0], a) && Fresh(a.queue)
    ensures var id := a.queue[(TimerTicks(events) / 10) % |a.queue|].id;
      && id in PrivateRun(tops, a, events).states
      && run[|events|].queue != [] && run[|events|].queue[0].id == id
      && run[|events|].m.user == PrivateRun(tops, a, events).states[id]
      && id in tops && run[|events|].m.sp - CTX_SIZE == FrameOf(tops, id)
  {
    PreemptionIsTransparent(tops, run, events, a);
    var frames := RunTicks(tops, a, events);
    RunningAfter(a.queue, frames);
  }

  /** No run gives a task another task's address space, or a changed one of its own. */
  lemma {:induction false} AddressSpaceIsKept(tops: Stacks, run: seq<System>, events: seq<Event>, a: Tasks, id: int)
    requires DisjointStacks(tops) && IsRun(tops, run, events) && Shows(tops, run[0], a) && id in a.states
    ensures id in PrivateRun(tops, a, events).states
    ensures PrivateRun(tops, a, events).states[id].ttbr0 == a.states[id].ttbr0
    decreases |events|
  {
    if events != [] {
      var k := |events| - 1;
      var before := events[..k];
      assert IsRun(tops, run[..k + 1], before) by {
        forall i | 0 <= i < k ensures Step(tops, run[i], before[i], run[i + 1]) {
          assert before[i] == events[i];
        }
      }
      AddressSpaceIsKept(tops, run[..k + 1], before, a, id);
      PreemptionIsTransparent(tops, run[..k + 1], before, a);
      assert Step(tops, run[k], events[k], run[k + 1]);
    }
  }
}
