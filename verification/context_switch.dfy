/** The register frame that kernel/arch/aarch64/vectors.s saves and restores around an
    exception, instruction by instruction, on one CPU with word-addressed memory. */
module ContextSwitch {

  import opened Translation

  // Byte offsets inside the frame, as vectors.s and struct Context lay it out.
  const CTX_SP_EL0 := 31 * 8
  const CTX_ELR := 32 * 8
  const CTX_SPSR := 33 * 8
  const CTX_TTBR0_EL1 := 34 * 8
  const CTX_SIZE := 34 * 8
  const CTX_WORDS := 35
  /** sizeof(Context): 35 words rounded up to the struct's 16-byte alignment. */
  const SIZEOF_CONTEXT := 288

  /** Everything an EL0 program can observe of its CPU, and its address space. */
  datatype UserState = UserState(x: seq<int>, spEl0: int, pc: int, pstate: int, ttbr0: int)

  /** 31 registers, and PSTATE.EL = 0, as at EL0. */
  predicate WellFormed(u: UserState) {
    |u.x| == 31 && (u.pstate / 4) % 4 == 0
  }

  /** The user state that a frame at address f stands for. */
  function Frame(mem: Memory, f: int): (u: UserState)
    ensures |u.x| == 31
  {
    UserState(seq(31, i => Read(mem, f + 8 * i)), Read(mem, f + CTX_SP_EL0), Read(mem, f + CTX_ELR),
              Read(mem, f + CTX_SPSR), Read(mem, f + CTX_TTBR0_EL1))
  }

  /** The bytes of a frame: the CTX_SIZE bytes below the old stack pointer and the
      TTBR0 word, which lies just above them. */
  predicate InFrame(a: int, f: int) {
    f <= a < f + 8 * CTX_WORDS
  }

  ghost predicate SameOutsideFrame(mem: Memory, mem': Memory, f: int) {
    forall a :: !InFrame(a, f) ==> Read(mem', a) == Read(mem, a)
  }

  ghost predicate SameFrame(mem: Memory, mem': Memory, f: int) {
    forall a :: InFrame(a, f) ==> Read(mem', a) == Read(mem, a)
  }

  lemma SameFrameSameState(mem: Memory, mem': Memory, f: int)
    requires SameFrame(mem, mem', f)
    ensures Frame(mem', f) == Frame(mem, f)
  {
  }

  /** struct Context, in bytes: the registers, SP_EL0, ELR, SPSR and TTBR0. */
  lemma FrameInBytes(mem: Memory, f: int)
    ensures forall i :: 0 <= i < 31 ==> Frame(mem, f).x[i] == Read(mem, f + 8 * i)
    ensures Frame(mem, f).spEl0 == Read(mem, f + 248) && Frame(mem, f).pc == Read(mem, f + 256)
    ensures Frame(mem, f).pstate == Read(mem, f + 264) && Frame(mem, f).ttbr0 == Read(mem, f + 272)
  {
  }

  /** The four system registers stored into a frame. */
  function WithSystem(mem: Memory, f: int, spEl0: int, elr: int, spsr: int, ttbr0: int): Memory {
    mem[f + CTX_SP_EL0 := spEl0][f + CTX_ELR := elr][f + CTX_SPSR := spsr][f + CTX_TTBR0_EL1 := ttbr0]
  }

  lemma SystemIsSaved(mem: Memory, f: int, was: Memory, u: UserState)
    requires |u.x| == 31 && forall i :: 0 <= i < 31 ==> Read(mem, f + 8 * i) == u.x[i]
    requires forall a :: !(f <= a < f + 8 * 31) ==> Read(mem, a) == Read(was, a)
    ensures var mem' := WithSystem(mem, f, u.spEl0, u.pc, u.pstate, u.ttbr0);
      Frame(mem', f) == u && SameOutsideFrame(was, mem', f)
  {
    var mem' := WithSystem(mem, f, u.spEl0, u.pc, u.pstate, u.ttbr0);
    assert Frame(mem', f).x == u.x;
  }

  class Cpu {
    var x: seq<int>        // x0 to x30
    var sp: int            // the EL1 stack pointer
    var spEl0: int
    var elr: int           // ELR_EL1
    var spsr: int          // SPSR_EL1
    var ttbr0: int         // TTBR0_EL1
    var pc: int
    var pstate: int
    var mem: Memory

    /** What is running, seen from EL0. */
    function User(): UserState
      reads this
    {
      UserState(x, spEl0, pc, pstate, ttbr0)
    }

    /** What an exception handler must preserve: the interrupted user state. */
    function Interrupted(): UserState
      reads this
    {
      UserState(x, spEl0, elr, spsr, ttbr0)
    }

    constructor (sp: int, mem: Memory)
      ensures this.sp == sp && this.mem == mem && |x| == 31
    {
      this.sp, this.mem, x := sp, mem, seq(31, i => 0);
      spEl0, elr, spsr, ttbr0, pc, pstate := 0, 0, 0, 0, 0, 0;
    }

    /** The hardware's part of an exception to EL1: PSTATE says EL1h with all exceptions
        masked. */
    method TakeException(vector: int)
      modifies `elr, `spsr, `pc, `pstate
      ensures Interrupted() == old(User())
      ensures pc == vector && pstate == 0x3c5
    {
      elr, spsr := pc, pstate;
      pc, pstate := vector, 0x3c5;
    }

    /** The first n registers are in the frame, and nothing else has been stored. */
    ghost predicate Saved(n: nat, was: Memory)
      requires n <= |x|
      reads `sp, `mem, `x
    {
      && (forall i :: 0 <= i < n ==> Read(mem, sp + 8 * i) == x[i])
      && (forall a :: !(sp <= a < sp + 8 * n) ==> Read(mem, a) == Read(was, a))
    }

    /** The registers from n on have been loaded from the frame. */
    ghost predicate Restored(n: nat)
      reads `sp, `mem, `x
    {
      |x| == 31 && forall i :: n <= i < 31 ==> x[i] == Read(mem, sp + 8 * i)
    }

    method Str(i: nat, offset: int)
      requires i < |x|
      modifies `mem
      ensures mem == old(mem)[sp + offset := x[i]]
    {
      mem := mem[sp + offset := x[i]];
    }

    /** str x30, [sp, #(15*16)] */
    method StrX30(ghost was: Memory)
      requires |x| == 31 && Saved(30, was)
      modifies `mem
      ensures Saved(31, was)
    {
      mem := mem[sp + 15 * 16 := x[30]];
    }

    /** stp x<2k>, x<2k+1>, [sp, #(k*16)] */
    method Stp(k: nat, ghost was: Memory)
      requires |x| == 31 && k < 15 && Saved(2 * k, was)
      modifies `mem
      ensures Saved(2 * k + 2, was)
    {
      mem := mem[sp + k * 16 := x[2 * k]][sp + k * 16 + 8 := x[2 * k + 1]];
    }

    method Ldr(i: nat, offset: int)
      requires i < |x|
      modifies `x
      ensures x == old(x)[i := Read(mem, sp + offset)]
    {
      x := x[i := Read(mem, sp + offset)];
    }

    /** ldp x<2k>, x<2k+1>, [sp, #(k*16)] */
    method Ldp(k: nat)
      requires k < 15 && Restored(2 * k + 2)
      modifies `x
      ensures Restored(2 * k)
    {
      x := x[2 * k := Read(mem, sp + k * 16)][2 * k + 1 := Read(mem, sp + k * 16 + 8)];
    }

    method SaveContext()
      requires |x| == 31
      modifies `x, `sp, `mem
      ensures sp == old(sp) - CTX_SIZE
      ensures Frame(mem, sp) == old(Interrupted())
      ensures SameOutsideFrame(old(mem), mem, sp)
      ensures x == old(x)[0 := ttbr0]
    {
      sp := sp - CTX_SIZE;
      SaveRegisters();
      SaveSystemRegisters(old(mem));
    }

    /** mrs and str, through x0. */
    method SaveSystemRegisters(ghost was: Memory)
      requires |x| == 31 && Saved(31, was)
      modifies `x, `mem
      ensures Frame(mem, sp) == old(Interrupted())
      ensures SameOutsideFrame(was, mem, sp)
      ensures x == old(x)[0 := ttbr0]
    {
      ghost var saved := mem;
      x := x[0 := spEl0];
      Str(0, CTX_SP_EL0);
      x := x[0 := elr];
      Str(0, CTX_ELR);
      x := x[0 := spsr];
      Str(0, CTX_SPSR);
      x := x[0 := ttbr0];
      Str(0, CTX_TTBR0_EL1);
      assert mem == WithSystem(saved, sp, spEl0, elr, spsr, ttbr0);
      SystemIsSaved(saved, sp, was, old(Interrupted()));
    }

    method SaveRegisters()
      requires |x| == 31
      modifies `mem
      ensures Saved(31, old(mem))
    {
      ghost var was := mem;
      Stp(0, was);
      Stp(1, was);
      Stp(2, was);
      Stp(3, was);
      Stp(4, was);
      Stp(5, was);
      Stp(6, was);
      Stp(7, was);
      Stp(8, was);
      Stp(9, was);
      Stp(10, was);
      Stp(11, was);
      Stp(12, was);
      Stp(13, was);
      Stp(14, was);
      StrX30(was);
    }

    /** eret at the end: the CPU is back at EL0 with what the frame holds. */
    method RestoreAndEret()
      requires |x| == 31
      modifies `x, `sp, `spEl0, `elr, `spsr, `ttbr0, `pc, `pstate
      ensures User() == Frame(mem, old(sp))
      ensures sp == old(sp) + CTX_SIZE && elr == pc && spsr == pstate
    {
      RestoreSystemRegisters();
      RestoreRegisters();
      assert x == Frame(mem, sp).x;
      sp := sp + CTX_SIZE;
      pc, pstate := elr, spsr;
    }

    /** ldr and msr, through x1. */
    method RestoreSystemRegisters()
      requires |x| == 31
      modifies `x, `spEl0, `elr, `spsr, `ttbr0
      ensures |x| == 31
      ensures ttbr0 == Frame(mem, sp).ttbr0 && spEl0 == Frame(mem, sp).spEl0
      ensures elr == Frame(mem, sp).pc && spsr == Frame(mem, sp).pstate
    {
      Ldr(1, CTX_TTBR0_EL1);
      ttbr0 := x[1];
      Ldr(1, CTX_SP_EL0);
      spEl0 := x[1];
      Ldr(1, CTX_ELR);
      elr := x[1];
      Ldr(1, CTX_SPSR);
      spsr := x[1];
    }

    method RestoreRegisters()
      requires |x| == 31
      modifies `x
      ensures Restored(0)
    {
      Ldr(30, 15 * 16);
      Ldp(14);
      Ldp(13);
      Ldp(12);
      Ldp(11);
      Ldp(10);
      Ldp(9);
      Ldp(8);
      Ldp(7);
      Ldp(6);
      Ldp(5);
      Ldp(4);
      Ldp(3);
      Ldp(2);
      Ldp(1);
      Ldp(0);
    }

    /** The way back from a C handler: it left `clobbered` in the registers and `after` in
        memory, and returned the frame to resume. */
    method ResumeFrom(context: int, clobbered: seq<int>, after: Memory)
      requires |clobbered| == 31
      modifies this
      ensures User() == Frame(after, context)
      ensures sp == context + CTX_SIZE && mem == after && elr == pc && spsr == pstate
    {
      x, mem := clobbered, after;
      sp := context;
      RestoreAndEret();
    }

    method FirstUserEnter(context: int)
      requires |x| == 31
      modifies `x, `sp, `spEl0, `elr, `spsr, `ttbr0, `pc, `pstate
      ensures User() == Frame(mem, context)
      ensures sp == context + CTX_SIZE
    {
      sp := context;
      RestoreAndEret();
    }

    /** build_initial_context and the TTBR0 assignment after it in init_task; the 31
        general registers are whatever the allocated page held. */
    method BuildInitialContext(ctx: int, entry: int, userStack: int, table: int)
      modifies `mem
      ensures Frame(mem, ctx) == UserState(old(Frame(mem, ctx)).x, userStack, entry, 0, table)
      ensures SameOutsideFrame(old(mem), mem, ctx)
    {
      mem := mem[ctx + CTX_SP_EL0 := userStack];
      mem := mem[ctx + CTX_ELR := entry];
      mem := mem[ctx + CTX_SPSR := 0];
      mem := mem[ctx + CTX_TTBR0_EL1 := table];
      assert Frame(mem, ctx).x == old(Frame(mem, ctx)).x;
    }
  }
}
