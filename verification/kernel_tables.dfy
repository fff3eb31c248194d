/** The kernel's own translation tables: mmu_init and add_virtio_page of kernel/core/mmu.c. */
module KernelTables {
  import opened Arithmetic
  import opened Translation

  const L0_BASE_PHYS := 0x8002_0000
  const L1_BASE_PHYS := 0x8004_0000
  const L2_BASE_PHYS := 0x8006_0000
  const L2_INDEX3_BASE_PHYS := 0x8008_0000
  const L3_INDEX0_BASE_PHYS := 0x800C_0000
  const TABLE_SIZE := 0x1000

  const PHYS_KERNEL_BASE := 0x8000_0000
  const VIRT_KERNEL_BASE := 0xffff_0000_8000_0000
  const PHYS_REGION_2_BASE := 0x0900_0000
  const VIRT_REGION_2_BASE := 0xffff_0000_8240_0000
  const DTB_BASE := 0x4000_0000
  const VIRT_DTB_BASE := 0xffff_0000_8540_0000
  const GICD_BASE := 0x0800_0000
  const VIRTUAL_GICD_BASE := 0xffff_0000_8140_0000
  const STACK_TOP := 0x801F_0000
  const VIRTIO_REG_RANGE := 0xffff_0000_8640_0000
  const USER_PROCESS_1_TABLE_START := 0x80A0_0000
  const USER_PROCESS_1_TABLE_START_WRITABLE := 0xFFFF_0000_80A0_0000

  /** Where the linker script puts __block_l2_memory_start: page-aligned, behind the image's
      0x7000 and 512 KiB reserves, and with room for the last level-3 table before the end
      of the first 2 MiB. */
  predicate Layout(l2Start: int) {
    l2Start % PAGE == 0 && 0x8008_7000 <= l2Start && l2Start + 0x2_1000 <= 0x8020_0000
  }

  // ----- What the tables hold after mmu_init -----

  /** The physical 2 MiB base of a level-2 window of the kernel's gigabyte, -1 if it has none. */
  function Window(i: nat): int {
    if i == 0 then 0x8000_0000
    else if i == 5 then 0x80A0_0000
    else if i == 10 then 0x0800_0000
    else if i == 18 then 0x0900_0000
    else if i == 42 then 0x4000_0000
    else -1
  }

  /** The physical address every block descriptor of that window was made from. */
  function WindowSource(i: nat, l2Start: int): int {
    if i == 0 then l2Start else Window(i)
  }

  ghost predicate InitTables(mem: Memory, l2Start: int)
    requires Layout(l2Start)
  {
    && (forall i :: 0 <= i < 512 ==> Entry(mem, L0_BASE_PHYS, i) == L0Init(i))
    && (forall i :: 0 <= i < 512 ==> Entry(mem, L1_BASE_PHYS, i) == L1Init(i))
    && (forall i :: 0 <= i < 512 ==> Entry(mem, L2_BASE_PHYS, i) == L2Init(i, l2Start))
  }

  function L0Init(i: nat): int { if i == 0 then MakeTableDesc(L1_BASE_PHYS) else 0 }
  function L1Init(i: nat): int { if i == 2 then MakeTableDesc(L2_BASE_PHYS) else 0 }

  function L2Init(i: nat, l2Start: int): int
    requires Layout(l2Start)
  {
    if Window(i) >= 0 then MakeBlockDesc(WindowSource(i, l2Start)) else 0
  }

  /** The kernel's translation, as a function of the address alone. */
  function KernelTranslation(va: nat): Translated {
    if (va / VA48 == 0 || va / VA48 == 0xFFFF) && va % VA48 / GB == 2 && Window(CalcIndexL2(va)) >= 0
    then To(Window(CalcIndexL2(va)) + va % MB2, false)
    else Fault
  }

  /** The addresses of the virtio register window, in both halves. */
  predicate InVirtioWindow(va: nat) {
    (va / VA48 == 0 || va / VA48 == 0xFFFF) && va % VA48 / GB == 2 && CalcIndexL2(va) == 50
  }

  /** A translation once the register window at `reg` is mapped over it. */
  function WithVirtio(before: Translated, reg: nat, va: nat): Translated {
    if InVirtioWindow(va) then To(reg / MB2 * MB2 + va % MB2, false) else before
  }

  predicate PointsAt(d: int, table: int) { IsTable(d) && PageBase(d) == table }

  /** The upper levels of the kernel's tables, at any time after mmu_init: level 0 leads to
      level 1 alone, level 1 to the window table and, once the heap is linked, to the heap's
      level-2 table; the window table holds no tables, and no heap table is the window table. */
  ghost predicate TopTables(mem: Memory) {
    && (forall i :: 0 <= i < 512 ==> Entry(mem, L0_BASE_PHYS, i) == L0Init(i))
    && (forall i :: 0 <= i < 512 && i != 3 ==> Entry(mem, L1_BASE_PHYS, i) == L1Init(i))
    && Entry(mem, L1_BASE_PHYS, 3) in {0, MakeTableDesc(L2_INDEX3_BASE_PHYS)}
    && (forall i :: 0 <= i < 512 ==> !IsTable(Entry(mem, L2_BASE_PHYS, i)))
    && (forall i :: 0 <= i < 512 ==> !PointsAt(Entry(mem, L2_INDEX3_BASE_PHYS, i), L2_BASE_PHYS))
  }

  lemma InitIsTop(mem: Memory, l2Start: int)
    requires Layout(l2Start) && InitTables(mem, l2Start)
    requires forall i :: 0 <= i < 512 ==> Entry(mem, L2_INDEX3_BASE_PHYS, i) == 0
    ensures TopTables(mem)
  {
    forall i | 0 <= i < 512 ensures !IsTable(Entry(mem, L2_BASE_PHYS, i)) {
      if Window(i) >= 0 {
        WindowDesc(i, l2Start);
      }
    }
  }

  lemma InitDescriptors(mem: Memory, l2Start: int)
    requires Layout(l2Start) && InitTables(mem, l2Start)
    ensures Read(mem, 0x8002_0000) == 0x8004_0003 && Read(mem, 0x8004_0010) == 0x8006_0003
    ensures Read(mem, 0x8006_0050) == 0x0800_0401 && Read(mem, 0x8006_0090) == 0x0900_0401
  {
    assert Entry(mem, L0_BASE_PHYS, 0) == L0Init(0) && Entry(mem, L1_BASE_PHYS, 2) == L1Init(2);
    assert Entry(mem, L2_BASE_PHYS, 10) == L2Init(10, l2Start) && Entry(mem, L2_BASE_PHYS, 18) == L2Init(18, l2Start);
  }

  /** Bits 47:39 are 0 and bits 38:30 are 2 exactly when bits 47:30 are 2. */
  lemma TopIndices(va: nat)
    ensures CalcIndexL0(va) == 0 && CalcIndexL1(va) == 2 <==> va % VA48 / GB == 2
  {
    var q, r := va / VA48, va % VA48;
    DivModUnique(va, GB512, q * 512 + r / GB512, r % GB512);
    DivModUnique(va / GB512, 512, q, r / GB512);
    DivModUnique(va, GB, q * 0x4_0000 + r / GB, r % GB);
    DivModUnique(va / GB, 512, q * 512 + r / GB / 512, r / GB % 512);
    DivModUnique(r, GB512, r / GB / 512, (r / GB % 512) * GB + r % GB);
  }

  lemma WindowDesc(i: nat, l2Start: int)
    requires Layout(l2Start) && i < 512 && Window(i) >= 0
    ensures var d := MakeBlockDesc(WindowSource(i, l2Start));
      IsBlock(d) && forall offset :: Leaf(d, Block2MBase(d), offset) == To(Window(i) + offset, false)
  {
    var base := WindowSource(i, l2Start);
    BlockDesc(base);
    DivModUnique(base, VA48, 0, base);
    DivModUnique(base, MB2, Window(i) / MB2, base - Window(i));
  }

  lemma InitWalk(mem: Memory, l2Start: int, va: nat)
    requires Layout(l2Start) && InitTables(mem, l2Start)
    ensures Walk(mem, L0_BASE_PHYS, va) ==
      if va % VA48 / GB == 2 && Window(CalcIndexL2(va)) >= 0
      then To(Window(CalcIndexL2(va)) + va % MB2, false)
      else Fault
  {
    TopIndices(va);
    TableDesc(L1_BASE_PHYS);
    TableDesc(L2_BASE_PHYS);
    var i := CalcIndexL2(va);
    if CalcIndexL0(va) == 0 && CalcIndexL1(va) == 2 && Window(i) >= 0 {
      WindowDesc(i, l2Start);
    }
  }

  /** For every 64-bit address: the kernel walk succeeds exactly for addresses of the low or
      the high half whose bits 47:30 are 2 and whose bits 29:21 are 0, 5, 10, 18 or 42, with
      the same result in both halves, and never opens a page to EL0. */
  lemma InitTranslation(mem: Memory, l2Start: int, va: nat)
    requires Layout(l2Start) && InitTables(mem, l2Start)
    ensures Translate(mem, L0_BASE_PHYS, L0_BASE_PHYS, va) == KernelTranslation(va)
    ensures Translate(mem, L0_BASE_PHYS, L0_BASE_PHYS, va).To? <==>
      (va / VA48 == 0 || va / VA48 == 0xFFFF) && va % VA48 / GB == 2 && CalcIndexL2(va) in {0, 5, 10, 18, 42}
    ensures va < VA48 ==>
      Translate(mem, L0_BASE_PHYS, L0_BASE_PHYS, HIGH + va) == Translate(mem, L0_BASE_PHYS, L0_BASE_PHYS, va)
  {
    InitWalk(mem, l2Start, va);
    if va < VA48 {
      HighAlias(va);
      InitWalk(mem, l2Start, HIGH + va);
    }
  }

  /** The device tree that is read at DTB_BASE before the tables are on is read at
      VIRT_DTB_BASE afterwards: the same bytes, for the whole 2 MiB window. */
  lemma DeviceTreeAliases(mem: Memory, l2Start: int, offset: nat)
    requires Layout(l2Start) && InitTables(mem, l2Start) && offset < MB2
    ensures Translate(mem, L0_BASE_PHYS, L0_BASE_PHYS, VIRT_DTB_BASE + offset) == To(DTB_BASE + offset, false)
  {
    var a := 0x8540_0000 + offset;
    HighAlias(a);
    DivModUnique(a, GB, 2, a - 2 * GB);
    DivModUnique(a, MB2, 2 * 512 + 42, offset);
    InitTranslation(mem, l2Start, HIGH + a);
  }

  /** The 2 MiB from `from` on, in both halves, lead to the 2 MiB from `to` on. */
  ghost predicate Leads(mem: Memory, ttbr0: int, ttbr1: int, from: nat, to: nat) {
    forall va: nat ::
      && (from <= va < from + 0x20_0000 ==> Translate(mem, ttbr0, ttbr1, va) == To(to + (va - from), false))
      && (0xFFFF_0000_0000_0000 + from <= va < 0xFFFF_0000_0020_0000 + from ==>
            Translate(mem, ttbr0, ttbr1, va) == To(to + (va - from - 0xFFFF_0000_0000_0000), false))
  }

  lemma WindowLeads(mem: Memory, l2Start: int, i: nat, from: nat, to: nat)
    requires Layout(l2Start) && InitTables(mem, l2Start) && i < 512
    requires from == 0x8000_0000 + 0x20_0000 * i && Window(i) == to
    ensures Leads(mem, L0_BASE_PHYS, L0_BASE_PHYS, from, to)
  {
    forall va: nat | from <= va < from + 0x20_0000
      ensures Translate(mem, L0_BASE_PHYS, L0_BASE_PHYS, va) == To(to + (va - from), false)
    {
      WindowByte(mem, l2Start, i, va, va - from);
    }
    forall va: nat | HIGH + from <= va < HIGH + from + 0x20_0000
      ensures Translate(mem, L0_BASE_PHYS, L0_BASE_PHYS, va) == To(to + (va - from - HIGH), false)
    {
      WindowByte(mem, l2Start, i, va - HIGH, va - HIGH - from);
    }
  }

  lemma WindowByte(mem: Memory, l2Start: int, i: nat, a: nat, offset: nat)
    requires Layout(l2Start) && InitTables(mem, l2Start) && i < 512 && offset < MB2
    requires a == 0x8000_0000 + MB2 * i + offset && Window(i) >= 0
    ensures Translate(mem, L0_BASE_PHYS, L0_BASE_PHYS, a) == To(Window(i) + offset, false)
    ensures Translate(mem, L0_BASE_PHYS, L0_BASE_PHYS, HIGH + a) == To(Window(i) + offset, false)
  {
    HighAlias(a);
    DivModUnique(a, GB, 2, MB2 * i + offset);
    DivModUnique(a, MB2, 1024 + i, offset);
    DivModUnique(1024 + i, 512, 2, i);
    InitTranslation(mem, l2Start, a);
  }

  lemma BlockOfIndices(va: nat)
    ensures va % VA48 / MB2 == va % VA48 / GB * 512 + CalcIndexL2(va)
  {
    var q, r := va / VA48, va % VA48;
    DivModUnique(va, MB2, q * 0x800_0000 + r / MB2, r % MB2);
    DivModUnique(va / MB2, 512, q * 0x4_0000 + r / MB2 / 512, r / MB2 % 512);
    DivModUnique(r, GB, r / MB2 / 512, (r / MB2 % 512) * MB2 + r % MB2);
  }

  /** The initial translation in numbers: the kernel, the user tables, the interrupt
      controller, the UART and the device tree, in both halves, and nothing else. */
  lemma InitInNumbers(mem: Memory, l2Start: int, va: nat)
    requires Layout(l2Start) && InitTables(mem, l2Start)
    ensures Leads(mem, L0_BASE_PHYS, L0_BASE_PHYS, 0x8000_0000, 0x8000_0000)
    ensures Leads(mem, L0_BASE_PHYS, L0_BASE_PHYS, 0x80A0_0000, 0x80A0_0000)
    ensures Leads(mem, L0_BASE_PHYS, L0_BASE_PHYS, 0x8140_0000, 0x0800_0000)
    ensures Leads(mem, L0_BASE_PHYS, L0_BASE_PHYS, 0x8240_0000, 0x0900_0000)
    ensures Leads(mem, L0_BASE_PHYS, L0_BASE_PHYS, 0x8540_0000, 0x4000_0000)
    ensures Translate(mem, L0_BASE_PHYS, L0_BASE_PHYS, va).To? ==>
              && va / 0x1_0000_0000_0000 in {0, 0xFFFF}
              && va % 0x1_0000_0000_0000 / 0x20_0000 in {0x400, 0x405, 0x40A, 0x412, 0x42A}
  {
    WindowLeads(mem, l2Start, 0, 0x8000_0000, 0x8000_0000);
    WindowLeads(mem, l2Start, 5, 0x80A0_0000, 0x80A0_0000);
    WindowLeads(mem, l2Start, 10, 0x8140_0000, 0x0800_0000);
    WindowLeads(mem, l2Start, 18, 0x8240_0000, 0x0900_0000);
    WindowLeads(mem, l2Start, 42, 0x8540_0000, 0x4000_0000);
    InitTranslation(mem, l2Start, va);
    BlockOfIndices(va);
  }

  // ----- Writing through the kernel's own mapping -----

  /** The two windows the kernel writes tables through are mapped. */
  ghost predicate KernelWindows(mem: Memory, l2Start: int)
    requires Layout(l2Start)
  {
    && Entry(mem, L0_BASE_PHYS, 0) == MakeTableDesc(L1_BASE_PHYS)
    && Entry(mem, L1_BASE_PHYS, 2) == MakeTableDesc(L2_BASE_PHYS)
    && Entry(mem, L2_BASE_PHYS, 0) == MakeBlockDesc(l2Start)
    && Entry(mem, L2_BASE_PHYS, 5) == MakeBlockDesc(USER_PROCESS_1_TABLE_START)
  }

  /** Physical addresses inside those windows. */
  predicate InWindows(pa: int) {
    0x8000_0000 <= pa < 0x8020_0000 || 0x80A0_0000 <= pa < 0x80C0_0000
  }

  /** The four words that map them. */
  predicate WindowWord(pa: int) {
    pa in {L0_BASE_PHYS, L1_BASE_PHYS + 16, L2_BASE_PHYS, L2_BASE_PHYS + 40}
  }

  lemma WindowIsIdentity(mem: Memory, l2Start: int, pa: nat)
    requires Layout(l2Start) && KernelWindows(mem, l2Start) && InWindows(pa)
    ensures Walk(mem, L0_BASE_PHYS, pa) == To(pa, false)
    ensures Walk(mem, L0_BASE_PHYS, HIGH + pa) == To(pa, false)
  {
    TableDesc(L1_BASE_PHYS);
    TableDesc(L2_BASE_PHYS);
    WindowDesc(0, l2Start);
    WindowDesc(5, l2Start);
    HighAlias(pa);
    TopIndices(pa);
    var i := if pa < 0x8020_0000 then 0 else 5;
    DivModUnique(pa, MB2, 1024 + i, pa - (1024 + i) * MB2);
    DivModUnique(1024 + i, 512, 2, i);
  }

  class Mmu {
    const l2Start: int
    var mem: Memory
    var ttbr0: int
    var ttbr1: int
    var tablesReady: bool   // the flag ALLOCATED

    constructor (l2Start: int, mem: Memory)
      requires Layout(l2Start)
      ensures this.l2Start == l2Start && this.mem == mem && !tablesReady
    {
      this.l2Start, this.mem, tablesReady := l2Start, mem, false;
      ttbr0, ttbr1 := 0, 0;
    }

    /** A store while the MMU is off. */
    method StorePhysical(pa: int, v: int)
      modifies `mem
      ensures mem == old(mem)[pa := v]
    {
      mem := mem[pa := v];
    }

    /** A store through a kernel virtual address: the address is translated by the tables
        as they are, and inside the mapped windows that is the address without its top bits. */
    method StoreVirtual(va: nat, v: int)
      requires Layout(l2Start) && KernelWindows(mem, l2Start) && InWindows(va % VA48) && !WindowWord(va % VA48)
      requires ttbr1 == L0_BASE_PHYS && (va == HIGH + va % VA48 || (va < VA48 && ttbr0 == L0_BASE_PHYS))
      modifies `mem
      ensures mem == old(mem)[va % VA48 := v]
      ensures KernelWindows(mem, l2Start)
    {
      WindowIsIdentity(mem, l2Start, va % VA48);
      HighAlias(va % VA48);
      var t := Translate(mem, ttbr0, ttbr1, va);
      mem := mem[t.pa := v];
    }

    method ClearTable(table: int)
      modifies `mem
      ensures forall a :: Read(mem, a) == if InTable(a, table) then 0 else Read(old(mem), a)
    {
      var i := 0;
      while i < 512
        invariant 0 <= i <= 512
        invariant forall a :: Read(mem, a) == if InTable(a, table) && (a - table) / 8 < i then 0 else Read(old(mem), a)
      {
        StorePhysical(table + 8 * i, 0);
        i := i + 1;
      }
    }

    method MmuInit()
      requires Layout(l2Start)
      modifies `mem, `ttbr0, `ttbr1
      ensures InitTables(mem, l2Start)
      ensures ttbr0 == L0_BASE_PHYS && ttbr1 == L0_BASE_PHYS
      ensures Leads(mem, ttbr0, ttbr1, 0x8000_0000, 0x8000_0000) && Leads(mem, ttbr0, ttbr1, 0x80A0_0000, 0x80A0_0000)
      ensures Leads(mem, ttbr0, ttbr1, 0x8140_0000, 0x0800_0000) && Leads(mem, ttbr0, ttbr1, 0x8240_0000, 0x0900_0000)
      ensures Leads(mem, ttbr0, ttbr1, 0x8540_0000, 0x4000_0000)
      ensures forall va: nat :: Translate(mem, ttbr0, ttbr1, va).To? ==>
                && va / 0x1_0000_0000_0000 in {0, 0xFFFF}
                && va % 0x1_0000_0000_0000 / 0x20_0000 in {0x400, 0x405, 0x40A, 0x412, 0x42A}
      ensures forall va :: 0 <= va ==> Translate(mem, ttbr0, ttbr1, va) == KernelTranslation(va)
      ensures ttbr0 == 0x8002_0000 && Read(mem, 0x8002_0000) == 0x8004_0003 && Read(mem, 0x8004_0010) == 0x8006_0003
      ensures Read(mem, 0x8006_0050) == 0x0800_0401 && Read(mem, 0x8006_0090) == 0x0900_0401
      ensures KernelWindows(mem, l2Start) && TopTables(mem)
      ensures forall i :: 0 <= i < 512 ==> Entry(mem, L2_INDEX3_BASE_PHYS, i) == 0
      ensures forall a :: !InFixedTables(a) ==> Read(mem, a) == Read(old(mem), a)
    {
      ClearTables();
      FillTop();
      ghost var top := mem;
      FillL2();
      forall i | 0 <= i < 512
        ensures Entry(mem, L0_BASE_PHYS, i) == Entry(top, L0_BASE_PHYS, i)
        ensures Entry(mem, L1_BASE_PHYS, i) == Entry(top, L1_BASE_PHYS, i)
        ensures Entry(mem, L2_INDEX3_BASE_PHYS, i) == Entry(top, L2_INDEX3_BASE_PHYS, i)
      {
      }
      ttbr0, ttbr1 := L0_BASE_PHYS, L0_BASE_PHYS;
      InitIsTop(mem, l2Start);
      InitDescriptors(mem, l2Start);
      InitInNumbers(mem, l2Start, 0);
      forall va: nat | Translate(mem, ttbr0, ttbr1, va).To?
        ensures va / 0x1_0000_0000_0000 in {0, 0xFFFF}
        ensures va % 0x1_0000_0000_0000 / 0x20_0000 in {0x400, 0x405, 0x40A, 0x412, 0x42A}
      {
        InitInNumbers(mem, l2Start, va);
      }
      forall va | 0 <= va ensures Translate(mem, ttbr0, ttbr1, va) == KernelTranslation(va) {
        InitTranslation(mem, l2Start, va);
      }
    }

    method ClearTables()
      modifies `mem
      ensures forall a :: Read(mem, a) == if InFixedTables(a) then 0 else Read(old(mem), a)
    {
      ClearTable(L0_BASE_PHYS);
      ClearTable(L1_BASE_PHYS);
      ClearTable(L2_BASE_PHYS);
      ClearTable(L2_INDEX3_BASE_PHYS);
      ClearTable(L3_INDEX0_BASE_PHYS);
    }

    method FillTop()
      requires forall a :: InFixedTables(a) ==> Read(mem, a) == 0
      modifies `mem
      ensures forall i :: 0 <= i < 512 ==> Entry(mem, L0_BASE_PHYS, i) == L0Init(i)
      ensures forall i :: 0 <= i < 512 ==> Entry(mem, L1_BASE_PHYS, i) == L1Init(i)
      ensures forall i :: 0 <= i < 512 ==> Entry(mem, L2_BASE_PHYS, i) == 0 == Entry(mem, L2_INDEX3_BASE_PHYS, i)
      ensures forall a :: !InFixedTables(a) ==> Read(mem, a) == Read(old(mem), a)
    {
      TopLevelIndices();
      StorePhysical(L0_BASE_PHYS + 8 * CalcIndexL0(VIRT_KERNEL_BASE), MakeTableDesc(L1_BASE_PHYS));
      StorePhysical(L0_BASE_PHYS + 8 * CalcIndexL0(PHYS_KERNEL_BASE), MakeTableDesc(L1_BASE_PHYS));
      StorePhysical(L1_BASE_PHYS + 8 * CalcIndexL1(VIRT_KERNEL_BASE), MakeTableDesc(L2_BASE_PHYS));
      StorePhysical(L1_BASE_PHYS + 8 * CalcIndexL1(PHYS_KERNEL_BASE), MakeTableDesc(L2_BASE_PHYS));
      forall i | 0 <= i < 512
        ensures Entry(mem, L0_BASE_PHYS, i) == L0Init(i)
        ensures Entry(mem, L1_BASE_PHYS, i) == L1Init(i)
        ensures Entry(mem, L2_BASE_PHYS, i) == 0 == Entry(mem, L2_INDEX3_BASE_PHYS, i)
      {
        assert InFixedTables(L0_BASE_PHYS + 8 * i);
        assert InFixedTables(L1_BASE_PHYS + 8 * i);
        assert InFixedTables(L2_BASE_PHYS + 8 * i);
        assert InFixedTables(L2_INDEX3_BASE_PHYS + 8 * i);
      }
    }

    /** The level-2 block entries, in the order mmu_init writes them. */
    method FillL2()
      requires Layout(l2Start)
      requires forall i :: 0 <= i < 512 ==> Entry(mem, L2_BASE_PHYS, i) == 0
      modifies `mem
      ensures forall i :: 0 <= i < 512 ==> Entry(mem, L2_BASE_PHYS, i) == L2Init(i, l2Start)
      ensures forall a :: !InTable(a, L2_BASE_PHYS) ==> Read(mem, a) == Read(old(mem), a)
    {
      WindowIndices();
      StorePhysical(L2_BASE_PHYS + 8 * CalcIndexL2(VIRT_KERNEL_BASE), MakeBlockDesc(PHYS_KERNEL_BASE));
      StorePhysical(L2_BASE_PHYS + 8 * CalcIndexL2(PHYS_KERNEL_BASE), MakeBlockDesc(PHYS_KERNEL_BASE));
      StorePhysical(L2_BASE_PHYS + 8 * CalcIndexL2(VIRT_REGION_2_BASE), MakeBlockDesc(PHYS_REGION_2_BASE));
      StorePhysical(L2_BASE_PHYS + 8 * CalcIndexL2(USER_PROCESS_1_TABLE_START_WRITABLE),
                    MakeBlockDesc(USER_PROCESS_1_TABLE_START));
      StorePhysical(L2_BASE_PHYS + 8 * CalcIndexL2(VIRTUAL_GICD_BASE), MakeBlockDesc(GICD_BASE));
      StorePhysical(L2_BASE_PHYS + 8 * CalcIndexL2(VIRT_DTB_BASE), MakeBlockDesc(DTB_BASE));
      StorePhysical(L2_BASE_PHYS + 8 * CalcIndexL2(STACK_TOP), MakeBlockDesc(STACK_TOP));
      L2StartIndex(l2Start);
      StorePhysical(L2_BASE_PHYS + 8 * CalcIndexL2(HIGH + l2Start), MakeBlockDesc(l2Start));
      forall i | 0 <= i < 512 ensures Entry(mem, L2_BASE_PHYS, i) == L2Init(i, l2Start) {
        if Window(i) < 0 {
          assert Entry(mem, L2_BASE_PHYS, i) == Entry(old(mem), L2_BASE_PHYS, i);
        }
      }
    }

    /** Maps the virtio register window, whatever the heap holds by then. It adds exactly the
        level-2 window 50 and moves no other address; registers at `reg` appear at
        VIRTIO_REG_RANGE if and only if reg is 2 MiB aligned. */
    method AddVirtioPage(reg: nat)
      requires Layout(l2Start) && KernelWindows(mem, l2Start) && TopTables(mem) && reg < VA48
      requires ttbr0 == L0_BASE_PHYS && ttbr1 == L0_BASE_PHYS
      modifies `mem
      ensures mem == old(mem)[L2_BASE_PHYS + 8 * 50 := MakeBlockDesc(reg)]
      ensures forall va: nat ::
                Translate(mem, ttbr0, ttbr1, va) == WithVirtio(old(Translate(mem, ttbr0, ttbr1, va)), reg, va)
      ensures Translate(mem, ttbr0, ttbr1, 0xffff_0000_8640_0000) == To(reg, false) <==> reg % 0x20_0000 == 0
      ensures reg % 0x20_0000 == 0 ==> Leads(mem, ttbr0, ttbr1, 0x8640_0000, reg)
      ensures KernelWindows(mem, l2Start) && TopTables(mem)
    {
      ghost var was := mem;
      WindowIndices();
      var index := CalcIndexL2(VIRTIO_REG_RANGE);
      StoreVirtual(L2_BASE_PHYS + 8 * index, MakeBlockDesc(reg));
      VirtioKeepsTop(was, mem, reg);
      VirtioTranslation(was, mem, reg);
    }
  }

  lemma VirtioTranslation(was: Memory, mem: Memory, reg: nat)
    requires TopTables(was) && TopTables(mem) && reg < VA48 && mem == was[L2_BASE_PHYS + 8 * 50 := MakeBlockDesc(reg)]
    ensures forall va: nat ::
              Translate(mem, L0_BASE_PHYS, L0_BASE_PHYS, va)
              == WithVirtio(Translate(was, L0_BASE_PHYS, L0_BASE_PHYS, va), reg, va)
    ensures Translate(mem, L0_BASE_PHYS, L0_BASE_PHYS, 0xffff_0000_8640_0000) == To(reg, false)
            <==> reg % 0x20_0000 == 0
    ensures reg % 0x20_0000 == 0 ==> Leads(mem, L0_BASE_PHYS, L0_BASE_PHYS, 0x8640_0000, reg)
  {
    forall va: nat
      ensures Translate(mem, L0_BASE_PHYS, L0_BASE_PHYS, va)
           == WithVirtio(Translate(was, L0_BASE_PHYS, L0_BASE_PHYS, va), reg, va)
    {
      VirtioWalk(was, mem, reg, va);
    }
    RegisterByte(0);
    RegistersLead(mem, reg);
  }

  lemma RegistersLead(mem: Memory, reg: nat)
    requires forall va: nat :: InVirtioWindow(va) ==>
               Translate(mem, L0_BASE_PHYS, L0_BASE_PHYS, va) == To(reg / MB2 * MB2 + va % MB2, false)
    ensures reg % MB2 == 0 ==> Leads(mem, L0_BASE_PHYS, L0_BASE_PHYS, 0x8640_0000, reg)
  {
    forall va: nat | 0x8640_0000 <= va < 0x8660_0000 ensures InVirtioWindow(va) && va % MB2 == va - 0x8640_0000 {
      RegisterByte(va - 0x8640_0000);
    }
    forall va: nat | HIGH + 0x8640_0000 <= va < HIGH + 0x8660_0000
      ensures InVirtioWindow(va) && va % MB2 == va - HIGH - 0x8640_0000
    {
      RegisterByte(va - HIGH - 0x8640_0000);
    }
  }

  lemma RegisterByte(offset: nat)
    requires offset < MB2
    ensures var a := 0x8640_0000 + offset;
      && InVirtioWindow(a) && a % MB2 == offset
      && InVirtioWindow(HIGH + a) && (HIGH + a) % MB2 == offset
  {
    var a := 0x8640_0000 + offset;
    HighAlias(a);
    DivModUnique(a, GB, 2, a - 2 * GB);
    DivModUnique(a, MB2, 1024 + 50, offset);
  }

  predicate InTable(a: int, table: int) {
    table <= a < table + TABLE_SIZE && (a - table) % 8 == 0
  }

  predicate InFixedTables(a: int) {
    InTable(a, L0_BASE_PHYS) || InTable(a, L1_BASE_PHYS) || InTable(a, L2_BASE_PHYS)
    || InTable(a, L2_INDEX3_BASE_PHYS) || InTable(a, L3_INDEX0_BASE_PHYS)
  }

  lemma TopLevelIndices()
    ensures CalcIndexL0(VIRT_KERNEL_BASE) == 0 && CalcIndexL0(PHYS_KERNEL_BASE) == 0
    ensures CalcIndexL1(VIRT_KERNEL_BASE) == 2 && CalcIndexL1(PHYS_KERNEL_BASE) == 2
  {
  }

  lemma WindowIndices()
    ensures CalcIndexL2(VIRT_KERNEL_BASE) == 0 && CalcIndexL2(PHYS_KERNEL_BASE) == 0 && CalcIndexL2(STACK_TOP) == 0
    ensures CalcIndexL2(VIRT_REGION_2_BASE) == 18 && CalcIndexL2(USER_PROCESS_1_TABLE_START_WRITABLE) == 5
    ensures CalcIndexL2(VIRTUAL_GICD_BASE) == 10 && CalcIndexL2(VIRT_DTB_BASE) == 42
    ensures CalcIndexL2(VIRTIO_REG_RANGE) == 50
  {
  }

  lemma L2StartIndex(l2Start: int)
    requires Layout(l2Start)
    ensures CalcIndexL2(HIGH + l2Start) == 0
  {
    HighAlias(l2Start);
  }

  lemma VirtioKeepsTop(was: Memory, mem: Memory, reg: nat)
    requires TopTables(was) && mem == was[L2_BASE_PHYS + 8 * 50 := MakeBlockDesc(reg)]
    ensures TopTables(mem)
  {
    BlockDesc(reg);
    forall i | 0 <= i < 512
      ensures Entry(mem, L0_BASE_PHYS, i) == Entry(was, L0_BASE_PHYS, i)
      ensures Entry(mem, L1_BASE_PHYS, i) == Entry(was, L1_BASE_PHYS, i)
      ensures Entry(mem, L2_INDEX3_BASE_PHYS, i) == Entry(was, L2_INDEX3_BASE_PHYS, i)
      ensures Entry(mem, L2_BASE_PHYS, i) == if i == 50 then MakeBlockDesc(reg) else Entry(was, L2_BASE_PHYS, i)
    {
    }
  }

  /** Bits 47:30 are 3: the gigabyte that kmalloc maps into. */
  predicate InHeapGigabyte(va: nat) {
    CalcIndexL0(va) == 0 && CalcIndexL1(va) == 3
  }

  /** The walk below level 1: bits 47:30 choose the window table, the heap or nothing. */
  lemma WalkByGigabyte(mem: Memory, va: nat)
    requires TopTables(mem)
    ensures Walk(mem, L0_BASE_PHYS, va) ==
      if va % VA48 / GB == 2 then WalkL2(mem, L2_BASE_PHYS, va)
      else if InHeapGigabyte(va) && Entry(mem, L1_BASE_PHYS, 3) != 0
      then WalkL2(mem, L2_INDEX3_BASE_PHYS, va)
      else Fault
  {
    TopIndices(va);
    TableDesc(L1_BASE_PHYS);
    TableDesc(L2_BASE_PHYS);
    TableDesc(L2_INDEX3_BASE_PHYS);
  }

  lemma VirtioWalk(was: Memory, mem: Memory, reg: nat, va: nat)
    requires TopTables(was) && TopTables(mem) && reg < VA48 && mem == was[L2_BASE_PHYS + 8 * 50 := MakeBlockDesc(reg)]
    ensures Walk(mem, L0_BASE_PHYS, va) ==
      if va % VA48 / GB == 2 && CalcIndexL2(va) == 50 then To(reg / MB2 * MB2 + va % MB2, false)
      else Walk(was, L0_BASE_PHYS, va)
  {
    WalkByGigabyte(was, va);
    WalkByGigabyte(mem, va);
    VirtioWindow(was, mem, reg, va);
    HeapTablesElsewhere(was, mem, reg, va);
  }

  lemma VirtioWindow(was: Memory, mem: Memory, reg: nat, va: nat)
    requires TopTables(was) && reg < VA48 && mem == was[L2_BASE_PHYS + 8 * 50 := MakeBlockDesc(reg)]
    ensures WalkL2(mem, L2_BASE_PHYS, va) ==
      if CalcIndexL2(va) == 50 then To(reg / MB2 * MB2 + va % MB2, false) else WalkL2(was, L2_BASE_PHYS, va)
  {
    BlockDesc(reg);
    var i := CalcIndexL2(va);
    assert Entry(mem, L2_BASE_PHYS, i) == if i == 50 then MakeBlockDesc(reg) else Entry(was, L2_BASE_PHYS, i);
  }

  /** A table's page is not touched by a write into another page. */
  lemma HeapTablesElsewhere(was: Memory, mem: Memory, reg: nat, va: nat)
    requires TopTables(was) && mem == was[L2_BASE_PHYS + 8 * 50 := MakeBlockDesc(reg)]
    ensures WalkL2(mem, L2_INDEX3_BASE_PHYS, va) == WalkL2(was, L2_INDEX3_BASE_PHYS, va)
  {
    var d := Entry(was, L2_INDEX3_BASE_PHYS, CalcIndexL2(va));
    assert Entry(mem, L2_INDEX3_BASE_PHYS, CalcIndexL2(va)) == d;
    if IsTable(d) {
      PagesApart(d / PAGE % 0x10_0000_0000, CalcIndexL3(va));
      assert Entry(mem, PageBase(d), CalcIndexL3(va)) == Entry(was, PageBase(d), CalcIndexL3(va));
    }
  }

  lemma PagesApart(page: nat, i: nat)
    requires i < 512 && page * PAGE != L2_BASE_PHYS
    ensures page * PAGE + 8 * i != L2_BASE_PHYS + 8 * 50
  {
  }
}
