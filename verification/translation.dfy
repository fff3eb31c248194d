/** The VMSAv8-64 table walk (Arm ARM DDI 0487, section D8.3: 4 KiB granule, 48-bit
    addresses) and the descriptor builders of kernel/core/mmu.c. */
module Translation {
  import opened Arithmetic

  /** Doublewords at physical byte addresses; a word that was never written is 0. */
  type Memory = map<int, int>

  function Read(mem: Memory, a: int): int {
    if a in mem then mem[a] else 0
  }

  const PAGE := 0x1000
  const MB2 := 0x20_0000
  const GB := 0x4000_0000
  const GB512 := 0x80_0000_0000
  const VA48 := 0x1_0000_0000_0000
  const HIGH := 0xFFFF_0000_0000_0000

  function CalcIndexL0(va: nat): (i: nat) ensures i < 512 { (va / GB512) % 512 }
  function CalcIndexL1(va: nat): (i: nat) ensures i < 512 { (va / GB) % 512 }
  function CalcIndexL2(va: nat): (i: nat) ensures i < 512 { (va / MB2) % 512 }
  function CalcIndexL3(va: nat): (i: nat) ensures i < 512 { (va / PAGE) % 512 }

  // ----- The walk -----

  datatype Translated = Fault | To(pa: int, el0: bool)

  function Entry(mem: Memory, table: int, i: nat): int {
    Read(mem, table + 8 * i)
  }

  predicate IsTable(d: int) { d % 4 == 3 }
  predicate IsBlock(d: int) { d % 4 == 1 }

  /** Bits 47:12, 47:21 and 47:30 of a descriptor. */
  function PageBase(d: int): int { (d / PAGE) % 0x10_0000_0000 * PAGE }
  function Block2MBase(d: int): int { (d / MB2) % 0x800_0000 * MB2 }
  function Block1GBase(d: int): int { (d / GB) % 0x4_0000 * GB }

  /** A leaf translates only with its access flag, bit 10; bit 6 opens it to EL0. */
  function Leaf(d: int, base: int, offset: int): Translated {
    if (d / 1024) % 2 == 1 then To(base + offset, (d / 64) % 2 == 1) else Fault
  }

  function WalkL3(mem: Memory, table: int, va: nat): Translated {
    var d := Entry(mem, table, CalcIndexL3(va));
    if IsTable(d) then Leaf(d, PageBase(d), va % PAGE) else Fault
  }

  function WalkL2(mem: Memory, table: int, va: nat): Translated {
    var d := Entry(mem, table, CalcIndexL2(va));
    if IsTable(d) then WalkL3(mem, PageBase(d), va)
    else if IsBlock(d) then Leaf(d, Block2MBase(d), va % MB2)
    else Fault
  }

  function WalkL1(mem: Memory, table: int, va: nat): Translated {
    var d := Entry(mem, table, CalcIndexL1(va));
    if IsTable(d) then WalkL2(mem, PageBase(d), va)
    else if IsBlock(d) then Leaf(d, Block1GBase(d), va % GB)
    else Fault
  }

  function Walk(mem: Memory, root: int, va: nat): Translated {
    var d := Entry(mem, root, CalcIndexL0(va));
    if IsTable(d) then WalkL1(mem, PageBase(d), va) else Fault
  }

  /** TTBR0 translates the low half, TTBR1 the high half, nothing else is translated. */
  function Translate(mem: Memory, ttbr0: int, ttbr1: int, va: nat): Translated {
    if va / VA48 == 0 then Walk(mem, ttbr0, va)
    else if va / VA48 == 0xFFFF then Walk(mem, ttbr1, va)
    else Fault
  }

  // ----- Descriptors -----

  /** The low twelve bits are cleared before the flags are put in, so | is +. */
  function MakeTableDesc(base: nat): int { base / PAGE * PAGE + 0x003 }
  function MakeBlockDesc(base: nat): int { base / PAGE * PAGE + 0x401 }
  function MakeL3BlockDesc(base: nat): int { base / PAGE * PAGE + 0x443 }

  function KernalToUserSpace(va: nat): (a: nat) ensures a < VA48 { va % VA48 }

  lemma LowBits(base: nat, flags: nat)
    requires flags < PAGE
    ensures var d := base / PAGE * PAGE + flags;
      && d / PAGE == base / PAGE
      && d % 4 == flags % 4
      && (d / 1024) % 2 == (flags / 1024) % 2
      && (d / 64) % 2 == (flags / 64) % 2
      && d / MB2 == base / MB2
  {
    var k := base / PAGE;
    var d := k * PAGE + flags;
    DivModUnique(d, PAGE, k, flags);
    DivModUnique(d, 4, k * 1024 + flags / 4, flags % 4);
    DivModUnique(d, 1024, k * 4 + flags / 1024, flags % 1024);
    DivModUnique(k * 4 + flags / 1024, 2, k * 2 + flags / 1024 / 2, (flags / 1024) % 2);
    DivModUnique(d, 64, k * 64 + flags / 64, flags % 64);
    DivModUnique(k * 64 + flags / 64, 2, k * 32 + flags / 64 / 2, (flags / 64) % 2);
    DivModUnique(d, MB2, k / 512, (k % 512) * PAGE + flags);
    DivModUnique(base, MB2, k / 512, (k % 512) * PAGE + base % PAGE);
  }

  /** A table descriptor points at the page of the address it was made from. */
  lemma TableDesc(base: nat)
    ensures IsTable(MakeTableDesc(base)) && PageBase(MakeTableDesc(base)) == base % VA48 / PAGE * PAGE
  {
    LowBits(base, 0x003);
    PageOfLow48(base);
  }

  lemma PageOfLow48(a: nat)
    ensures (a / PAGE) % 0x10_0000_0000 * PAGE == a % VA48 / PAGE * PAGE
    ensures a % VA48 == a % VA48 / PAGE * PAGE + a % PAGE
  {
    var q, r := a / VA48, a % VA48;
    DivModUnique(a, PAGE, q * 0x10_0000_0000 + r / PAGE, r % PAGE);
    DivModUnique(a / PAGE, 0x10_0000_0000, q, r / PAGE);
  }

  lemma BlockDesc(base: nat)
    ensures var d := MakeBlockDesc(base);
      && IsBlock(d) && Block2MBase(d) == base % VA48 / MB2 * MB2
      && forall offset :: Leaf(d, Block2MBase(d), offset) == To(Block2MBase(d) + offset, false)
  {
    LowBits(base, 0x401);
    var q, r := base / VA48, base % VA48;
    DivModUnique(base, MB2, q * 0x800_0000 + r / MB2, r % MB2);
    DivModUnique(base / MB2, 0x800_0000, q, r / MB2);
  }

  lemma L3BlockDesc(base: nat)
    ensures var d := MakeL3BlockDesc(base);
      && IsTable(d) && PageBase(d) == base % VA48 / PAGE * PAGE
      && forall offset :: Leaf(d, PageBase(d), offset) == To(PageBase(d) + offset, true)
  {
    LowBits(base, 0x443);
    PageOfLow48(base);
  }

  /** The three kinds in numbers, and what the walk makes of the two leaves. */
  lemma DescriptorsInNumbers()
    ensures MakeTableDesc(0x8004_0000) == 0x8004_0003
    ensures MakeBlockDesc(0x0900_0000) == 0x0900_0401 && Leaf(0x0900_0401, 0, 5) == To(5, false)
    ensures MakeL3BlockDesc(0xC000_0000) == 0xC000_0443 && Leaf(0xC000_0443, 0, 5) == To(5, true)
  {
  }

  /** The two aliases of an address have the same table indices and offsets. */
  lemma HighAlias(a: nat)
    requires a < VA48
    ensures var va := HIGH + a;
      && va / VA48 == 0xFFFF && va % VA48 == a && a / VA48 == 0
      && CalcIndexL0(va) == CalcIndexL0(a) && CalcIndexL1(va) == CalcIndexL1(a)
      && CalcIndexL2(va) == CalcIndexL2(a) && CalcIndexL3(va) == CalcIndexL3(a)
      && va % MB2 == a % MB2 && va % PAGE == a % PAGE
  {
    var va := HIGH + a;
    DivModUnique(va, VA48, 0xFFFF, a);
    DivModUnique(va, GB512, 0xFFFF * 512 + a / GB512, a % GB512);
    DivModUnique(va / GB512, 512, 0xFFFF, a / GB512);
    DivModUnique(va, GB, 0xFFFF * 0x4_0000 + a / GB, a % GB);
    DivModUnique(va / GB, 512, 0xFFFF * 512 + a / GB / 512, a / GB % 512);
    DivModUnique(va, MB2, 0xFFFF * 0x800_0000 + a / MB2, a % MB2);
    DivModUnique(va / MB2, 512, 0xFFFF * 0x4_0000 + a / MB2 / 512, a / MB2 % 512);
    DivModUnique(va, PAGE, 0xFFFF * 0x10_0000_0000 + a / PAGE, a % PAGE);
    DivModUnique(va / PAGE, 512, 0xFFFF * 0x800_0000 + a / PAGE / 512, a / PAGE % 512);
  }
}
