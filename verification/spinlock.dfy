/** The LDAXR/STLXR spinlock of kernel/core/spinlock.c as a small-step machine:
    any number of CPUs, one shared lock word, one exclusive monitor per CPU
    (Arm ARM DDI 0487, chapter B2, "Synchronization and semaphores"). */
module Spinlock {

  /** Program points of one CPU. Each Lock*, Unlock* point names the instruction
      that is executed next; Outside and Critical are the caller's own code. */
  datatype Pc =
    | Outside
    | Mask                                                        // msr daifset, #0xf
    | LockLoad | LockTest | LockMove | LockStore | LockCheck
    | Critical
    | UnlockLoad | UnlockMove | UnlockStore | UnlockCheck
    | Unmask                                                      // msr DAIFCLr, #2

  /** w0 and w1 are the two registers of the inline assembly, monitor is the CPU's
      exclusive reservation on the lock word, withMask says which pair of entry
      points the CPU is using. */
  datatype Cpu = Cpu(pc: Pc, w0: int, w1: int, monitor: bool, irqMasked: bool, withMask: bool)

  datatype State = State(lock: int, cpus: seq<Cpu>)

  /** What can happen next. DropMonitor is the architecture's freedom to lose a
      reservation at any time; Tick is the timer interrupt of one CPU. */
  datatype Event =
    | Enter(cpu: nat, withMask: bool)
    | Leave(cpu: nat)
    | Execute(cpu: nat)
    | DropMonitor(cpu: nat)
    | Tick(cpu: nat)

  function Initial(n: nat): State {
    State(0, seq(n, i => Cpu(Outside, 0, 0, false, false, false)))
  }

  /** The next instruction of a CPU that is neither a store nor in its caller's code. */
  function Local(c: Cpu, lock: int): Cpu {
    match c.pc
    case Mask => c.(pc := LockLoad, irqMasked := true)
    case LockLoad => c.(pc := LockTest, w0 := lock, monitor := true)
    case LockTest => c.(pc := if c.w0 != 0 then LockLoad else LockMove)
    case LockMove => c.(pc := LockStore, w0 := 1)
    case LockCheck => c.(pc := if c.w1 != 0 then LockLoad else Critical)
    case UnlockLoad => c.(pc := UnlockMove, w0 := lock, monitor := true)
    case UnlockMove => c.(pc := UnlockStore, w0 := 0)
    case UnlockCheck =>
      c.(pc := if c.w1 != 0 then UnlockLoad else if c.withMask then Unmask else Outside)
    case Unmask => c.(pc := Outside, irqMasked := false)
    case _ => c
  }

  /** STLXR: with a reservation the word is written and every reservation on it is
      gone; without one nothing is written and w1 is 1. */
  function StoreExclusive(s: State, i: nat): State
    requires i < |s.cpus|
  {
    var c := s.cpus[i];
    var after := if c.pc == LockStore then LockCheck else UnlockCheck;
    if c.monitor then
      State(c.w0, seq(|s.cpus|, j requires 0 <= j < |s.cpus| =>
        if j == i then c.(pc := after, w1 := 0, monitor := false) else s.cpus[j].(monitor := false)))
    else
      s.(cpus := s.cpus[i := c.(pc := after, w1 := 1)])
  }

  /** An interrupt is taken only while it is not masked. */
  predicate TickTaken(s: State, i: nat) {
    i < |s.cpus| && !s.cpus[i].irqMasked
  }

  /** One event; an event that is not enabled leaves the state alone. The return from
      a taken interrupt clears the CPU's reservation. */
  function Step(s: State, e: Event): State {
    if e.cpu >= |s.cpus| then s else
    var i := e.cpu;
    var c := s.cpus[i];
    match e
    case Enter(_, withMask) =>
      if c.pc != Outside then s
      else s.(cpus := s.cpus[i := c.(pc := if withMask then Mask else LockLoad, withMask := withMask)])
    case Leave(_) =>
      if c.pc != Critical then s else s.(cpus := s.cpus[i := c.(pc := UnlockLoad)])
    case Execute(_) =>
      if c.pc == LockStore || c.pc == UnlockStore then StoreExclusive(s, i)
      else s.(cpus := s.cpus[i := Local(c, s.lock)])
    case DropMonitor(_) => s.(cpus := s.cpus[i := c.(monitor := false)])
    case Tick(_) => if TickTaken(s, i) then s.(cpus := s.cpus[i := c.(monitor := false)]) else s
  }

  function Run(s: State, events: seq<Event>): State
    decreases |events|
  {
    if events == [] then s else Run(Step(s, events[0]), events[1..])
  }

  /** From the successful store of spin_lock to the successful store of spin_unlock. */
  predicate Holds(c: Cpu) {
    match c.pc
    case LockCheck => c.w1 == 0
    case Critical | UnlockLoad | UnlockMove | UnlockStore => true
    case UnlockCheck => c.w1 != 0
    case _ => false
  }

  /** Between the return of spin_lock and the call of spin_unlock. */
  predicate InSection(c: Cpu) {
    c.pc == Critical
  }

  /** What a live reservation knows about the lock word, and when interrupts are masked. */
  ghost predicate CpuInv(c: Cpu, lock: int) {
    && (c.monitor && c.pc == LockTest ==> c.w0 == lock)
    && (c.monitor && c.pc in {LockMove, LockStore} ==> lock == 0)
    && (c.pc == LockStore ==> c.w0 == 1)
    && (c.pc == UnlockStore ==> c.w0 == 0)
    && (c.pc == Critical ==> c.w1 == 0)
    && (c.pc in {Mask, Unmask} ==> c.withMask)
    && (c.irqMasked <==> c.withMask && c.pc !in {Outside, Mask})
  }

  ghost predicate Inv(s: State) {
    && (s.lock == 0 || s.lock == 1)
    && (forall i :: 0 <= i < |s.cpus| ==> CpuInv(s.cpus[i], s.lock))
    && (forall i, j :: 0 <= i < |s.cpus| && 0 <= j < |s.cpus| && Holds(s.cpus[i]) && Holds(s.cpus[j]) ==> i == j)
    && (s.lock == 1 <==> exists i :: 0 <= i < |s.cpus| && Holds(s.cpus[i]))
  }

  lemma StoreKeepsInv(s: State, i: nat)
    requires Inv(s) && i < |s.cpus| && s.cpus[i].pc in {LockStore, UnlockStore}
    ensures Inv(StoreExclusive(s, i))
  {
    var t := StoreExclusive(s, i);
    var c := s.cpus[i];
    if c.monitor && c.pc == LockStore {
      assert Holds(t.cpus[i]);
    } else if c.monitor {
      assert Holds(s.cpus[i]);
    } else {
      assert forall j :: 0 <= j < |s.cpus| ==> (Holds(t.cpus[j]) <==> Holds(s.cpus[j]));
    }
  }

  /** An event that stores nothing and does not move its CPU into or out of holding. */
  lemma QuietUpdateKeepsInv(s: State, i: nat, c: Cpu)
    requires Inv(s) && i < |s.cpus|
    requires CpuInv(c, s.lock) && (Holds(c) <==> Holds(s.cpus[i]))
    ensures Inv(s.(cpus := s.cpus[i := c]))
  {
    var t := s.(cpus := s.cpus[i := c]);
    assert forall j :: 0 <= j < |s.cpus| ==> (Holds(t.cpus[j]) <==> Holds(s.cpus[j]));
  }

  lemma StepKeepsInv(s: State, e: Event)
    requires Inv(s)
    ensures Inv(Step(s, e))
  {
    if e.cpu < |s.cpus| {
      var c := s.cpus[e.cpu];
      assert CpuInv(c, s.lock);
      if e.Execute? && (c.pc == LockStore || c.pc == UnlockStore) {
        StoreKeepsInv(s, e.cpu);
      } else {
        QuietStep(s, e);
        QuietUpdateKeepsInv(s, e.cpu, Step(s, e).cpus[e.cpu]);
      }
    }
  }

  lemma QuietStep(s: State, e: Event)
    requires Inv(s) && e.cpu < |s.cpus|
    requires !(e.Execute? && s.cpus[e.cpu].pc in {LockStore, UnlockStore})
    ensures Step(s, e).lock == s.lock && |Step(s, e).cpus| == |s.cpus|
    ensures var c := Step(s, e).cpus[e.cpu];
      && Step(s, e).cpus == s.cpus[e.cpu := c]
      && CpuInv(c, s.lock) && (Holds(c) <==> Holds(s.cpus[e.cpu]))
  {
    var c := s.cpus[e.cpu];
    assert CpuInv(c, s.lock);
    assert s.cpus == s.cpus[e.cpu := c];
    if e.Execute? {
      LocalKeepsInv(c, s.lock);
    }
  }

  lemma LocalKeepsInv(c: Cpu, lock: int)
    requires CpuInv(c, lock) && c.pc !in {LockStore, UnlockStore}
    ensures CpuInv(Local(c, lock), lock) && (Holds(Local(c, lock)) <==> Holds(c))
  {
  }

  lemma {:induction false} RunKeepsInv(s: State, events: seq<Event>)
    requires Inv(s)
    ensures Inv(Run(s, events))
    decreases |events|
  {
    if events != [] {
      StepKeepsInv(s, events[0]);
      RunKeepsInv(Step(s, events[0]), events[1..]);
    }
  }

  /** Any number of CPUs and any interleaving of single instructions, lost reservations
      and interrupts: at most one CPU is in its section, the word is 1 exactly while
      some CPU holds the lock, and spin_lock has returned 0 to it. */
  lemma MutualExclusion(n: nat, events: seq<Event>)
    ensures var s := Run(Initial(n), events);
      && (forall i, j ::
            0 <= i < |s.cpus| && 0 <= j < |s.cpus| && InSection(s.cpus[i]) && InSection(s.cpus[j]) ==> i == j)
      && s.lock == (if exists i :: 0 <= i < |s.cpus| && Holds(s.cpus[i]) then 1 else 0)
      && (forall i :: 0 <= i < |s.cpus| && InSection(s.cpus[i]) ==> Holds(s.cpus[i]) && s.cpus[i].w1 == 0)
  {
    RunKeepsInv(Initial(n), events);
  }

  /** Only the holder's own store can make the lock word 0 again. */
  lemma OnlyHolderReleases(s: State, e: Event)
    requires Inv(s) && s.lock == 1 && Step(s, e).lock == 0
    ensures e.Execute? && e.cpu < |s.cpus| && Holds(s.cpus[e.cpu]) && s.cpus[e.cpu].pc == UnlockStore
    ensures forall j :: 0 <= j < |s.cpus| ==> !Holds(Step(s, e).cpus[j])
  {
    StepKeepsInv(s, e);
  }

  /** A CPU that took the lock with spin_lock_with_mask gets no timer tick, so no
      schedule_on_tick, from before it holds the lock until after it has released it. */
  lemma HolderIsNotDescheduled(n: nat, events: seq<Event>, cpu: nat)
    requires cpu < n && TickTaken(Run(Initial(n), events), cpu)
    ensures var s := Run(Initial(n), events);
      cpu < |s.cpus| && (s.cpus[cpu].withMask ==> !Holds(s.cpus[cpu]) && s.cpus[cpu].pc in {Outside, Mask})
  {
    RunKeepsInv(Initial(n), events);
  }

  /** Exactly when interrupts are masked, in any run: from the mask instruction of the masked
      entry point to the unmask instruction of its exit point. A CPU in its caller's code
      takes its tick, however often it has held the lock. */
  lemma MaskedExactly(n: nat, events: seq<Event>, cpu: nat)
    requires cpu < n
    ensures var s := Run(Initial(n), events);
      && cpu < |s.cpus|
      && (TickTaken(s, cpu) <==> !s.cpus[cpu].withMask || s.cpus[cpu].pc in {Outside, Mask})
      && (s.cpus[cpu].pc == Outside ==> TickTaken(s, cpu))
  {
    RunKeepsInv(Initial(n), events);
    RunKeepsCpus(Initial(n), events);
  }

  lemma {:induction false} RunKeepsCpus(s: State, events: seq<Event>)
    ensures |Run(s, events).cpus| == |s.cpus|
    decreases |events|
  {
    if events != [] {
      RunKeepsCpus(Step(s, events[0]), events[1..]);
    }
  }

  // ----- Progress: one CPU that runs alone -----

  function Alone(s: State, cpu: nat, steps: nat): State
    decreases steps
  {
    if steps == 0 then s else Alone(Step(s, Execute(cpu)), cpu, steps - 1)
  }

  predicate Acquiring(c: Cpu) {
    c.pc in {Mask, LockLoad, LockTest, LockMove, LockStore, LockCheck}
  }

  predicate Releasing(c: Cpu) {
    c.pc in {UnlockLoad, UnlockMove, UnlockStore, UnlockCheck, Unmask}
  }

  /** How many instructions a CPU that runs alone on a free lock is from its section. */
  function StepsToSection(c: Cpu): nat {
    match c.pc
    case Mask => 6
    case LockLoad => 5
    case LockTest => if c.w0 != 0 then 6 else if c.monitor then 4 else 9
    case LockMove => if c.monitor then 3 else 8
    case LockStore => if c.monitor then 2 else 7
    case LockCheck => 6
    case _ => 0
  }

  function StepsToOutside(c: Cpu): nat {
    match c.pc
    case UnlockLoad => 5
    case UnlockMove => if c.monitor then 4 else 8
    case UnlockStore => if c.monitor then 3 else 7
    case UnlockCheck => if c.w1 != 0 then 6 else 2
    case Unmask => 1
    case _ => 0
  }

  /** A free lock is taken within nine instructions of any CPU that runs alone, wherever
      in its retry loop it was left and whatever has happened to its reservation. */
  lemma {:induction false} LoneCpuAcquires(s: State, cpu: nat, steps: nat)
    requires Inv(s) && cpu < |s.cpus|
    requires
      || (s.lock == 0 && Acquiring(s.cpus[cpu]))
      || (s.lock == 1 && Holds(s.cpus[cpu]) && s.cpus[cpu].pc in {LockCheck, Critical})
    requires s.lock == 0 ==> steps >= StepsToSection(s.cpus[cpu])
    requires s.lock == 1 && s.cpus[cpu].pc == LockCheck ==> steps >= 1
    ensures var t := Alone(s, cpu, steps); |t.cpus| == |s.cpus| && InSection(t.cpus[cpu]) && t.lock == 1
    decreases steps
  {
    if steps > 0 {
      StepKeepsInv(s, Execute(cpu));
      LoneCpuAcquires(Step(s, Execute(cpu)), cpu, steps - 1);
    }
  }

  lemma NineStepsAcquire(s: State, cpu: nat)
    requires Inv(s) && cpu < |s.cpus| && s.lock == 0 && Acquiring(s.cpus[cpu])
    ensures var t := Alone(s, cpu, 9); |t.cpus| == |s.cpus| && InSection(t.cpus[cpu]) && t.lock == 1
  {
    LoneCpuAcquires(s, cpu, 9);
  }

  /** A holder that runs alone is back outside, with the word 0 and taking interrupts again,
      within eight instructions. */
  lemma {:induction false} LoneHolderReleases(s: State, cpu: nat, steps: nat)
    requires Inv(s) && cpu < |s.cpus|
    requires Releasing(s.cpus[cpu]) || s.cpus[cpu].pc == Outside
    requires Holds(s.cpus[cpu]) || s.lock == 0
    requires steps >= StepsToOutside(s.cpus[cpu])
    ensures var t := Alone(s, cpu, steps);
      |t.cpus| == |s.cpus| && t.cpus[cpu].pc == Outside && t.lock == 0 && TickTaken(t, cpu)
    decreases steps
  {
    if steps > 0 {
      StepKeepsInv(s, Execute(cpu));
      LoneHolderReleases(Step(s, Execute(cpu)), cpu, steps - 1);
    }
  }

  lemma {:induction false} AloneIsRun(s: State, cpu: nat, steps: nat)
    ensures Alone(s, cpu, steps) == Run(s, seq(steps, _ => Execute(cpu)))
    decreases steps
  {
    if steps > 0 {
      var events := seq(steps, _ => Execute(cpu));
      assert events[1..] == seq(steps - 1, _ => Execute(cpu));
      AloneIsRun(Step(s, Execute(cpu)), cpu, steps - 1);
    }
  }

  /** The plain spin_lock gives no such protection: its holder can be interrupted. */
  lemma PlainHolderCanBeInterrupted()
    ensures exists events: seq<Event> ::
      var s := Run(Initial(1), events); |s.cpus| == 1 && InSection(s.cpus[0]) && TickTaken(s, 0)
  {
    var entered := Step(Initial(1), Enter(0, false));
    var s, solo := Alone(entered, 0, 5), seq(5, _ => Execute(0));
    PlainEntry();
    LoneCpuAcquires(entered, 0, 5);
    PlainStaysUnmasked(entered, 0, 5);
    AloneIsRun(entered, 0, 5);
    RunFromStep(Initial(1), Enter(0, false), solo);
  }

  lemma PlainEntry()
    ensures var s := Step(Initial(1), Enter(0, false));
      && Inv(s) && s.lock == 0 && |s.cpus| == 1
      && s.cpus[0].pc == LockLoad && !s.cpus[0].irqMasked
  {
    StepKeepsInv(Initial(1), Enter(0, false));
  }

  lemma RunFromStep(s: State, e: Event, rest: seq<Event>)
    ensures Run(s, [e] + rest) == Run(Step(s, e), rest)
  {
    assert ([e] + rest)[1..] == rest;
  }

  lemma {:induction false} PlainStaysUnmasked(s: State, cpu: nat, steps: nat)
    requires cpu < |s.cpus| && !s.cpus[cpu].irqMasked && s.cpus[cpu].pc != Mask
    ensures var t := Alone(s, cpu, steps);
      |t.cpus| == |s.cpus| && !t.cpus[cpu].irqMasked
    decreases steps
  {
    if steps > 0 {
      PlainStaysUnmasked(Step(s, Execute(cpu)), cpu, steps - 1);
    }
  }
}
