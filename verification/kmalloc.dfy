/** kmalloc and map_pagetable_entry of kernel/core/mmu.c: pages from the bitmap, mapped into
    the gigabyte at 0xC0000000 through level-3 tables that lie 512 bytes apart. */
module Kmalloc {
  import opened Arithmetic
  import opened Translation
  import opened KernelTables
  import opened PageBitmap
  import UserTables

  const PHYS_BASE_ADDR := 0xC000_0000
  const MAX_MAPPED := 20

  /** Doublewords from l2Start that the level-3 tables of all scannable pages cover. */
  const AREA_WORDS := 0x4200

  /** bitindex_to_phys */
  function BitIndexToPhys(b: BitIndex): nat {
    PagePa(PageOf(b))
  }

  function PagePa(q: nat): nat { PHYS_BASE_ADDR + PAGE * q }

  /** The doubleword of the area that mapping page q writes: its table is at
      512 * (q / 512) bytes. */
  function Slot(q: nat): nat { 64 * (q / 512) + q % 512 }

  /** The doubleword that the walk of page q reads: a table descriptor keeps only the page
      of the table's address. */
  function WalkSlot(q: nat): nat { 512 * (q / 512 / 8) + q % 512 }

  lemma SlotInArea(q: nat)
    requires q < SCANNED_PAGES
    ensures q / 512 <= 256 && Slot(q) < AREA_WORDS && WalkSlot(q) < AREA_WORDS
  {
  }

  lemma SlotIsWalked(q: nat)
    ensures Slot(q) == WalkSlot(q) <==> (q / 512) % 8 == 0
  {
  }

  lemma SlotIsInjective(p: nat, q: nat)
    requires (p / 512) % 8 == 0 && (q / 512) % 8 == 0 && Slot(p) == Slot(q)
    ensures p == q
  {
    DivModUnique(Slot(p), 512, p / 512 / 8, p % 512);
    DivModUnique(Slot(q), 512, q / 512 / 8, q % 512);
  }

  // ----- What the tables hold -----

  /** The page mapped last among those that write doubleword s, -1 if none did. */
  function LastIn(history: seq<nat>, s: nat): int {
    if history == [] then -1
    else if Slot(history[|history| - 1]) == s then history[|history| - 1]
    else LastIn(history[..|history| - 1], s)
  }

  ghost predicate HasGroup(history: seq<nat>, j: nat) {
    exists i :: 0 <= i < |history| && history[i] / 512 == j
  }

  function AreaWord(history: seq<nat>, s: nat): int {
    if LastIn(history, s) >= 0 then MakeL3BlockDesc(PagePa(LastIn(history, s))) else 0
  }

  ghost function GroupWord(history: seq<nat>, j: nat, l2Start: int): int
    requires Layout(l2Start)
  {
    if HasGroup(history, j) then MakeTableDesc(l2Start + 512 * j) else 0
  }

  ghost predicate Represents(mem: Memory, l2Start: int, history: seq<nat>)
    requires Layout(l2Start)
  {
    && Entry(mem, L1_BASE_PHYS, 3) == MakeTableDesc(L2_INDEX3_BASE_PHYS)
    && (forall j :: 0 <= j < 512 ==> Entry(mem, L2_INDEX3_BASE_PHYS, j) == GroupWord(history, j, l2Start))
    && (forall s :: 0 <= s < AREA_WORDS ==> Entry(mem, l2Start, s) == AreaWord(history, s))
  }

  /** Doublewords that kmalloc may write. */
  predicate HeapWord(a: int, l2Start: int) {
    l2Start <= a < l2Start + 8 * AREA_WORDS || InTable(a, L2_INDEX3_BASE_PHYS) || InTable(a, L3_INDEX0_BASE_PHYS)
    || a == L1_BASE_PHYS + 24
  }

  function PutPage(mem: Memory, l2Start: int, q: nat): Memory
    requires Layout(l2Start)
  {
    mem[L2_INDEX3_BASE_PHYS + 8 * (q / 512) := MakeTableDesc(l2Start + 512 * (q / 512))]
       [l2Start + 8 * Slot(q) := MakeL3BlockDesc(PagePa(q))]
  }

  lemma PutPageRepresents(mem: Memory, l2Start: int, history: seq<nat>, q: nat)
    requires Layout(l2Start) && Represents(mem, l2Start, history) && q < SCANNED_PAGES
    ensures Represents(PutPage(mem, l2Start, q), l2Start, history + [q])
  {
    SlotInArea(q);
    var mem', history' := PutPage(mem, l2Start, q), history + [q];
    forall j | 0 <= j < 512 ensures Entry(mem', L2_INDEX3_BASE_PHYS, j) == GroupWord(history', j, l2Start) {
      OneMoreGroup(history, q, j);
      assert Entry(mem', L2_INDEX3_BASE_PHYS, j) ==
        if j == q / 512 then MakeTableDesc(l2Start + 512 * j) else Entry(mem, L2_INDEX3_BASE_PHYS, j);
    }
    assert history'[..|history'| - 1] == history;
    forall s | 0 <= s < AREA_WORDS ensures Entry(mem', l2Start, s) == AreaWord(history', s) {
      assert Entry(mem', l2Start, s) == if s == Slot(q) then MakeL3BlockDesc(PagePa(q)) else Entry(mem, l2Start, s);
    }
  }

  lemma PutPageFrame(mem: Memory, l2Start: int, q: nat)
    requires Layout(l2Start) && q < SCANNED_PAGES
    ensures SameOutsideHeap(mem, PutPage(mem, l2Start, q), l2Start)
  {
    SlotInArea(q);
  }

  lemma OneMoreGroup(history: seq<nat>, q: nat, j: nat)
    ensures HasGroup(history + [q], j) <==> HasGroup(history, j) || j == q / 512
  {
    var history' := history + [q];
    if HasGroup(history, j) {
      var i :| 0 <= i < |history| && history[i] / 512 == j;
      assert history'[i] / 512 == j;
    }
    assert history'[|history|] == q;
  }

  // ----- The walk of a heap address -----

  lemma PageIndices(q: nat, offset: nat)
    requires q < SCANNED_PAGES && offset < PAGE
    ensures var va := HIGH + PagePa(q) + offset;
      && CalcIndexL0(va) == 0 && CalcIndexL1(va) == 3 && CalcIndexL2(va) == q / 512 && CalcIndexL3(va) == q % 512
      && va % PAGE == offset && va / VA48 == 0xFFFF
  {
    var a := PagePa(q) + offset;
    HighAlias(a);
    DivModUnique(a, GB512, 0, a);
    DivModUnique(a, GB, 3, PAGE * q + offset);
    DivModUnique(a, MB2, 3 * 512 + q / 512, PAGE * (q % 512) + offset);
    DivModUnique(a, PAGE, 3 * 512 * 512 + q, offset);
    DivModUnique(3 * 512 * 512 + q, 512, 3 * 512 + q / 512, q % 512);
  }

  lemma TableOfGroup(l2Start: int, q: nat)
    requires Layout(l2Start) && q < SCANNED_PAGES
    ensures IsTable(MakeTableDesc(l2Start + 512 * (q / 512)))
    ensures PageBase(MakeTableDesc(l2Start + 512 * (q / 512))) + 8 * (q % 512) == l2Start + 8 * WalkSlot(q)
  {
    SlotInArea(q);
    var j := q / 512;
    TableDesc(l2Start + 512 * j);
    DivModUnique(l2Start + 512 * j, VA48, 0, l2Start + 512 * j);
    DivModUnique(l2Start + 512 * j, PAGE, l2Start / PAGE + j / 8, 512 * (j % 8));
  }

  /** Where every address of the heap's gigabyte leads: to the page mapped last into the
      doubleword that its walk reads, whichever page that is. */
  lemma HeapWalk(mem: Memory, l2Start: int, history: seq<nat>, q: nat, offset: nat)
    requires Layout(l2Start) && KernelWindows(mem, l2Start) && Represents(mem, l2Start, history)
    requires q < SCANNED_PAGES && offset < PAGE && InScan(history)
    ensures var last := LastIn(history, WalkSlot(q));
      Walk(mem, L0_BASE_PHYS, HIGH + PagePa(q) + offset) ==
      if HasGroup(history, q / 512) && last >= 0 then To(PagePa(last) + offset, true) else Fault
  {
    var last, word := LastIn(history, WalkSlot(q)), AreaWord(history, WalkSlot(q));
    HeapLevels(mem, l2Start, q, offset);
    SlotInArea(q);
    assert Entry(mem, L2_INDEX3_BASE_PHYS, q / 512) == GroupWord(history, q / 512, l2Start);
    assert Entry(mem, l2Start, WalkSlot(q)) == word;
    if last >= 0 {
      LastIsMapped(history, WalkSlot(q));
      LeafOfPage(last, offset);
    }
  }

  /** A heap address through the three upper levels, down to the doubleword it reads. */
  lemma HeapLevels(mem: Memory, l2Start: int, q: nat, offset: nat)
    requires Layout(l2Start) && KernelWindows(mem, l2Start) && q < SCANNED_PAGES && offset < PAGE
    requires Entry(mem, L1_BASE_PHYS, 3) == MakeTableDesc(L2_INDEX3_BASE_PHYS)
    requires Entry(mem, L2_INDEX3_BASE_PHYS, q / 512) in {0, MakeTableDesc(l2Start + 512 * (q / 512))}
    ensures var word := Entry(mem, l2Start, WalkSlot(q));
      Walk(mem, L0_BASE_PHYS, HIGH + PagePa(q) + offset) ==
      if Entry(mem, L2_INDEX3_BASE_PHYS, q / 512) != 0 && IsTable(word)
      then Leaf(word, PageBase(word), offset)
      else Fault
  {
    var va := HIGH + PagePa(q) + offset;
    PageIndices(q, offset);
    UpperLevels(mem, l2Start, va);
    TableOfGroup(l2Start, q);
    assert IsTable(Entry(mem, L2_INDEX3_BASE_PHYS, q / 512)) || Entry(mem, L2_INDEX3_BASE_PHYS, q / 512) == 0;
  }

  lemma UpperLevels(mem: Memory, l2Start: int, va: nat)
    requires Layout(l2Start) && KernelWindows(mem, l2Start)
    requires Entry(mem, L1_BASE_PHYS, 3) == MakeTableDesc(L2_INDEX3_BASE_PHYS)
    requires CalcIndexL0(va) == 0 && CalcIndexL1(va) == 3
    ensures Walk(mem, L0_BASE_PHYS, va) == WalkL2(mem, L2_INDEX3_BASE_PHYS, va)
  {
    TableDesc(L1_BASE_PHYS);
    TableDesc(L2_INDEX3_BASE_PHYS);
  }

  lemma LeafOfPage(q: nat, offset: nat)
    requires q < SCANNED_PAGES
    ensures var d := MakeL3BlockDesc(PagePa(q));
      IsTable(d) && Leaf(d, PageBase(d), offset) == To(PagePa(q) + offset, true)
  {
    L3BlockDesc(PagePa(q));
    DivModUnique(PagePa(q), VA48, 0, PagePa(q));
    DivModUnique(PagePa(q), PAGE, 0xC_0000 + q, 0);
  }

  ghost predicate InScan(history: seq<nat>) {
    forall i :: 0 <= i < |history| ==> history[i] < SCANNED_PAGES
  }

  lemma {:induction false} LastIsMapped(history: seq<nat>, s: nat)
    ensures LastIn(history, s) >= 0 <==> exists i :: 0 <= i < |history| && Slot(history[i]) == s
    ensures LastIn(history, s) >= 0 ==> LastIn(history, s) in history && Slot(LastIn(history, s)) == s
    decreases |history|
  {
    if history != [] {
      var k := |history| - 1;
      var before := history[..k];
      LastIsMapped(before, s);
      if Slot(history[k]) == s {
      } else if i :| 0 <= i < |history| && Slot(history[i]) == s {
        assert before[i] == history[i];
      }
    }
  }

  // ----- When every mapped page is reachable -----

  /** Where byte `offset` of page q's virtual page leads. */
  function At(mem: Memory, q: nat, offset: nat): Translated {
    Walk(mem, L0_BASE_PHYS, HIGH + PagePa(q) + offset)
  }

  /** Page q reaches its own physical page, at every offset. */
  ghost predicate Reachable(mem: Memory, q: nat) {
    forall offset :: 0 <= offset < PAGE ==> At(mem, q, offset) == To(PagePa(q) + offset, true)
  }

  ghost predicate AllReachable(mem: Memory, history: seq<nat>) {
    forall i :: 0 <= i < |history| ==> Reachable(mem, history[i])
  }

  lemma ReachableIsLast(mem: Memory, l2Start: int, history: seq<nat>, n: nat)
    requires Layout(l2Start) && KernelWindows(mem, l2Start) && Represents(mem, l2Start, history) && InScan(history)
    requires n < |history|
    ensures Reachable(mem, history[n]) <==> LastIn(history, WalkSlot(history[n])) == history[n]
  {
    var q := history[n];
    var last := LastIn(history, WalkSlot(q));
    assert HasGroup(history, q / 512);
    forall offset | 0 <= offset < PAGE
      ensures At(mem, q, offset) == if last >= 0 then To(PagePa(last) + offset, true) else Fault
    {
      HeapWalk(mem, l2Start, history, q, offset);
    }
    if Reachable(mem, q) {
      assert At(mem, q, 0) == To(PagePa(q) + 0, true);
    }
  }

  /** The exact condition: all mapped pages are reachable if and only if each lies in a 2 MiB
      group whose table the 512-byte spacing happens to put at the start of a page. */
  lemma AllReachableIff(mem: Memory, l2Start: int, history: seq<nat>)
    requires Layout(l2Start) && KernelWindows(mem, l2Start) && Represents(mem, l2Start, history) && InScan(history)
    ensures AllReachable(mem, history) <==> forall i :: 0 <= i < |history| ==> (history[i] / 512) % 8 == 0
  {
    forall i | 0 <= i < |history|
      ensures Reachable(mem, history[i]) <==> LastIn(history, WalkSlot(history[i])) == history[i]
      ensures LastIn(history, WalkSlot(history[i])) == history[i] ==> (history[i] / 512) % 8 == 0
    {
      ReachableIsLast(mem, l2Start, history, i);
      LastIsMapped(history, WalkSlot(history[i]));
      SlotIsWalked(history[i]);
    }
    if forall i :: 0 <= i < |history| ==> (history[i] / 512) % 8 == 0 {
      forall i | 0 <= i < |history| ensures LastIn(history, WalkSlot(history[i])) == history[i] {
        var s := WalkSlot(history[i]);
        SlotIsWalked(history[i]);
        LastIsMapped(history, s);
        var last := LastIn(history, s);
        var m :| 0 <= m < |history| && history[m] == last;
        SlotIsInjective(history[m], history[i]);
      }
    }
  }

  // ----- Runs of kmalloc -----

  /** Pages taken so far, and the pages mapped so far in order. */
  datatype Heap = Heap(used: nat, history: seq<nat>)

  function From(first: nat, n: nat): (pages: seq<nat>)
    ensures |pages| == n && forall i :: 0 <= i < n ==> pages[i] == first + i
  {
    seq(n, i requires 0 <= i => first + i)
  }

  /** One kmalloc of n pages: the next ones in order are taken, and mapped unless they are more than
      20; without enough pages the rest is taken and nothing is mapped. */
  function Allocated(h: Heap, n: nat): Heap {
    if h.used + n > SCANNED_PAGES then Heap(SCANNED_PAGES, h.history)
    else Heap(h.used + n, if n <= MAX_MAPPED then h.history + From(h.used, n) else h.history)
  }

  /** A run of kmalloc calls from an empty bitmap, given by their page counts. */
  function Run(counts: seq<nat>): Heap {
    if counts == [] then Heap(0, []) else Allocated(Run(counts[..|counts| - 1]), counts[|counts| - 1])
  }

  /** The first page of the i-th allocation of a run. */
  function First(counts: seq<nat>, i: nat): nat
    requires i <= |counts|
  {
    if i == 0 then 0 else First(counts, i - 1) + counts[i - 1]
  }

  function Total(counts: seq<nat>): nat { First(counts, |counts|) }

  ghost predicate AllMapped(counts: seq<nat>) {
    forall i :: 0 <= i < |counts| ==> counts[i] <= MAX_MAPPED
  }

  lemma {:induction false} FirstOfPrefix(counts: seq<nat>, k: nat, i: nat)
    requires i <= k <= |counts|
    ensures First(counts[..k], i) == First(counts, i)
    decreases i
  {
    if i > 0 {
      FirstOfPrefix(counts, k, i - 1);
    }
  }

  /** Distinct allocations of a run share no page. */
  lemma {:induction false} AllocationsAreDisjoint(counts: seq<nat>, i: nat, k: nat)
    requires i < k <= |counts|
    ensures First(counts, i) + counts[i] <= First(counts, k)
    decreases k
  {
    if i < k - 1 {
      AllocationsAreDisjoint(counts, i, k - 1);
    }
  }

  /** A run of small allocations that fits maps its pages 0, 1, 2, ... in order. */
  lemma {:induction false} RunMapsInOrder(counts: seq<nat>)
    requires AllMapped(counts) && Total(counts) <= SCANNED_PAGES
    ensures Run(counts) == Heap(Total(counts), From(0, Total(counts)))
    decreases |counts|
  {
    if counts != [] {
      var k := |counts| - 1;
      FirstOfPrefix(counts, k, k);
      RunMapsInOrder(counts[..k]);
      assert From(0, Total(counts)) == From(0, First(counts, k)) + From(First(counts, k), counts[k]);
    }
  }

  /** kmalloc is stable over whole runs, exactly up to 512 pages: after any run of small
      allocations, every page of every allocation, early or late, is reachable if and only
      if the run took at most 512 pages. */
  lemma KmallocIsStable(mem: Memory, l2Start: int, counts: seq<nat>)
    requires AllMapped(counts) && Total(counts) <= SCANNED_PAGES
    requires Layout(l2Start) && KernelWindows(mem, l2Start) && Represents(mem, l2Start, Run(counts).history)
    ensures AllReachable(mem, Run(counts).history) <==> Total(counts) <= 512
  {
    RunMapsInOrder(counts);
    var history := From(0, Total(counts));
    AllReachableIff(mem, l2Start, history);
    if Total(counts) > 512 {
      assert history[512] == 512;
    }
  }

  /** The same for one byte: within 512 pages, byte r of page k of the i-th allocation is at
      the matching physical byte, and open to EL0. */
  lemma EveryByteIsMapped(mem: Memory, l2Start: int, counts: seq<nat>, i: nat, k: nat, r: nat)
    requires AllMapped(counts) && Total(counts) <= 512 && i < |counts| && k < counts[i] && r < PAGE
    requires Layout(l2Start) && KernelWindows(mem, l2Start) && Represents(mem, l2Start, Run(counts).history)
    ensures ByteIsMapped(mem, First(counts, i), k, r)
  {
    var q := First(counts, i) + k;
    PageOfRun(counts, i, k);
    PageIsReachable(mem, l2Start, counts, q);
    ByteOfReachable(mem, First(counts, i), k, q, r);
  }

  /** Page q of a run of small allocations is reachable as long as the run is short. */
  lemma PageIsReachable(mem: Memory, l2Start: int, counts: seq<nat>, q: nat)
    requires AllMapped(counts) && q < Total(counts) <= 512
    requires Layout(l2Start) && KernelWindows(mem, l2Start) && Represents(mem, l2Start, Run(counts).history)
    ensures Reachable(mem, q)
  {
    KmallocIsStable(mem, l2Start, counts);
    RunMapsInOrder(counts);
    assert Run(counts).history[q] == q;
  }

  /** The byte r of page k of an allocation that starts at page `first`. */
  ghost predicate ByteIsMapped(mem: Memory, first: nat, k: nat, r: nat) {
    var pa := PagePa(first) + (PAGE * k + r);
    Translate(mem, L0_BASE_PHYS, L0_BASE_PHYS, HIGH + pa) == To(pa, true)
  }

  lemma PageOfRun(counts: seq<nat>, i: nat, k: nat)
    requires i < |counts| && k < counts[i]
    ensures First(counts, i) + k < Total(counts)
  {
    assert First(counts, i + 1) == First(counts, i) + counts[i];
    if i + 1 < |counts| {
      AllocationsAreDisjoint(counts, i + 1, |counts|);
    }
  }

  lemma ByteOfReachable(mem: Memory, first: nat, k: nat, q: nat, r: nat)
    requires q == first + k && q < SCANNED_PAGES && Reachable(mem, q) && r < PAGE
    ensures ByteIsMapped(mem, first, k, r)
  {
    assert PagePa(q) + r == PagePa(first) + (PAGE * k + r);
    assert At(mem, q, r) == To(PagePa(q) + r, true);
    PageIndices(q, r);
  }

  /** Where a store to the start of the page that the next one-page kmalloc returns goes. */
  function FreshTarget(h: Heap): Translated {
    var last := LastIn(h.history + [h.used], WalkSlot(h.used));
    if last >= 0 then To(PagePa(last), true) else Fault
  }

  /** It goes to that page if and only if the page lies in a group whose number is a multiple
      of 8. */
  lemma FreshIsOwn(h: Heap)
    ensures FreshTarget(h) == To(PagePa(h.used), true) <==> (h.used / 512) % 8 == 0
  {
    var q, s := h.used, WalkSlot(h.used);
    var history := h.history + [q];
    assert history[..|history| - 1] == h.history;
    SlotIsWalked(q);
    LastIsMapped(history, s);
  }

  lemma FreshWalk(mem: Memory, l2Start: int, h: Heap)
    requires Layout(l2Start) && KernelWindows(mem, l2Start) && Represents(mem, l2Start, h.history + [h.used])
    requires h.used < SCANNED_PAGES && InScan(h.history)
    ensures Translate(mem, L0_BASE_PHYS, L0_BASE_PHYS, HIGH + PagePa(h.used)) == FreshTarget(h)
  {
    var history := h.history + [h.used];
    assert history[|h.history|] == h.used;
    assert HasGroup(history, h.used / 512);
    HeapWalk(mem, l2Start, history, h.used, 0);
    PageIndices(h.used, 0);
  }

  /** The first 64 pages stay reachable for ever: no other page has their doublewords. */
  lemma FirstPagesStay(mem: Memory, l2Start: int, history: seq<nat>, n: nat)
    requires Layout(l2Start) && KernelWindows(mem, l2Start) && Represents(mem, l2Start, history) && InScan(history)
    requires n < |history| && history[n] < 64
    ensures Reachable(mem, history[n])
  {
    var q := history[n];
    ReachableIsLast(mem, l2Start, history, n);
    LastIsMapped(history, WalkSlot(q));
    LowSlot(q, q);
    LowSlot(LastIn(history, q), q);
  }

  lemma LowSlot(p: nat, q: nat)
    requires q < 64
    ensures WalkSlot(q) == q && (Slot(p) == q <==> p == q)
  {
  }

  lemma OnlyMapped(history: seq<nat>, s: nat, n: nat)
    requires n < |history| && Slot(history[n]) == s
    requires forall i :: 0 <= i < |history| && Slot(history[i]) == s ==> history[i] == history[n]
    ensures LastIn(history, s) == history[n]
  {
    LastIsMapped(history, s);
    var last := LastIn(history, s);
    var m :| 0 <= m < |history| && history[m] == last;
  }

  /** With 512 pages mapped in order, the next page's address leads to page 0. */
  lemma Page512LeadsToPage0(h: Heap)
    requires h.used == 512 && 0 < |h.history| && h.history[0] == 0
    ensures FreshTarget(h) == To(PagePa(0), true)
  {
    var now := h.history + [h.used];
    var s := WalkSlot(h.used);
    assert s == 0;
    forall i | 0 <= i < |now| ensures Slot(now[i]) == s <==> now[i] == s {
      LowSlot(now[i], s);
    }
    OnlyMapped(now, s, 0);
  }

  /** Past 512 pages the walk reads another page's entry: page 512 is mapped into the
      doubleword of page 64, so an address of page 64 reaches page 512. */
  lemma Page512TakesPage64(mem: Memory, l2Start: int)
    requires Layout(l2Start) && KernelWindows(mem, l2Start) && Represents(mem, l2Start, From(0, 513))
    ensures Walk(mem, L0_BASE_PHYS, HIGH + PagePa(64)) == To(PagePa(512), true)
  {
    var history := From(0, 513);
    assert history[512] == 512 && history[64] == 64;
    assert LastIn(history, 64) == 512;
    assert HasGroup(history, 0);
    HeapWalk(mem, l2Start, history, 64, 0);
  }

  // ----- The code -----

  /** The heap's tables before the first mapping: not linked yet, and zero behind the
      doublewords that the first mapping clears. */
  ghost predicate Unlinked(mem: Memory, l2Start: int)
    requires Layout(l2Start)
  {
    && Entry(mem, L1_BASE_PHYS, 3) == 0
    && (forall j :: 0 <= j < 512 ==> Entry(mem, L2_INDEX3_BASE_PHYS, j) == 0)
    && (forall s :: 640 <= s < AREA_WORDS ==> Entry(mem, l2Start, s) == 0)
  }

  /** 512 * 10 bytes */
  const CLEARED_WORDS := 640

  ghost predicate SameOutsideHeap(mem: Memory, mem': Memory, l2Start: int) {
    forall a :: !HeapWord(a, l2Start) ==> Read(mem', a) == Read(mem, a)
  }

  /** kmalloc keeps the shape of the kernel's upper tables. */
  lemma HeapKeepsTop(mem: Memory, mem': Memory, l2Start: int, history: seq<nat>)
    requires Layout(l2Start) && TopTables(mem) && SameOutsideHeap(mem, mem', l2Start)
    requires (Represents(mem', l2Start, history) && InScan(history)) || Unlinked(mem', l2Start)
    ensures TopTables(mem')
  {
    forall i | 0 <= i < 512
      ensures Entry(mem', L0_BASE_PHYS, i) == Entry(mem, L0_BASE_PHYS, i)
      ensures i != 3 ==> Entry(mem', L1_BASE_PHYS, i) == Entry(mem, L1_BASE_PHYS, i)
      ensures Entry(mem', L2_BASE_PHYS, i) == Entry(mem, L2_BASE_PHYS, i)
    {
    }
    forall j | 0 <= j < 512 && IsTable(Entry(mem', L2_INDEX3_BASE_PHYS, j))
      ensures PageBase(Entry(mem', L2_INDEX3_BASE_PHYS, j)) != L2_BASE_PHYS
    {
      if Represents(mem', l2Start, history) && InScan(history) {
        HeapTableIsInArea(mem', l2Start, history, j);
      }
    }
  }

  lemma HeapTableIsInArea(mem: Memory, l2Start: int, history: seq<nat>, j: nat)
    requires Layout(l2Start) && Represents(mem, l2Start, history) && InScan(history)
    requires j < 512 && IsTable(Entry(mem, L2_INDEX3_BASE_PHYS, j))
    ensures l2Start <= PageBase(Entry(mem, L2_INDEX3_BASE_PHYS, j)) <= 0x8020_0000 - TABLE_SIZE
  {
    assert Entry(mem, L2_INDEX3_BASE_PHYS, j) == GroupWord(history, j, l2Start);
    var i :| 0 <= i < |history| && history[i] / 512 == j;
    TableOfGroup(l2Start, history[i]);
    SlotInArea(history[i]);
  }

  /** add_virtio_page leaves the heap's tables as they are. */
  lemma VirtioKeepsHeap(mem: Memory, l2Start: int, history: seq<nat>, v: int)
    requires Layout(l2Start)
    ensures var mem' := mem[L2_BASE_PHYS + 8 * 50 := v];
      && (Represents(mem, l2Start, history) ==> Represents(mem', l2Start, history))
      && (Unlinked(mem, l2Start) ==> Unlinked(mem', l2Start))
  {
    var mem' := mem[L2_BASE_PHYS + 8 * 50 := v];
    forall i | 0 <= i < 512 ensures Entry(mem', L2_INDEX3_BASE_PHYS, i) == Entry(mem, L2_INDEX3_BASE_PHYS, i) {
    }
    forall i | 0 <= i < AREA_WORDS ensures Entry(mem', l2Start, i) == Entry(mem, l2Start, i) {
    }
  }

  /** Whatever the heap's doublewords become, no address outside its gigabyte moves. */
  lemma OtherTranslationsStay(mem: Memory, mem': Memory, l2Start: int, va: nat)
    requires Layout(l2Start) && TopTables(mem) && SameOutsideHeap(mem, mem', l2Start) && !InHeapGigabyte(va)
    ensures Walk(mem', L0_BASE_PHYS, va) == Walk(mem, L0_BASE_PHYS, va)
  {
    forall i | 0 <= i < 512
      ensures Entry(mem', L0_BASE_PHYS, i) == Entry(mem, L0_BASE_PHYS, i)
      ensures i != 3 ==> Entry(mem', L1_BASE_PHYS, i) == Entry(mem, L1_BASE_PHYS, i)
    {
    }
    WalkOutsideHeap(mem, va);
    WalkOutsideHeap(mem', va);
    assert Entry(mem', L2_BASE_PHYS, CalcIndexL2(va)) == Entry(mem, L2_BASE_PHYS, CalcIndexL2(va));
  }

  /** Outside the heap's gigabyte only the window table is left to decide. */
  lemma WalkOutsideHeap(mem: Memory, va: nat)
    requires forall i :: 0 <= i < 512 ==> Entry(mem, L0_BASE_PHYS, i) == L0Init(i)
    requires forall i :: 0 <= i < 512 && i != 3 ==> Entry(mem, L1_BASE_PHYS, i) == L1Init(i)
    requires !InHeapGigabyte(va)
    ensures Walk(mem, L0_BASE_PHYS, va) == if va % VA48 / GB == 2 then WalkL2(mem, L2_BASE_PHYS, va) else Fault
  {
    TopIndices(va);
    TableDesc(L1_BASE_PHYS);
    TableDesc(L2_BASE_PHYS);
  }

  /** The heap's tables lie where no user mapping call writes: with KernelClosed, no such
      call moves a heap address either. */
  lemma HeapIsClosed(mem: Memory, l2Start: int, history: seq<nat>)
    requires Layout(l2Start) && TopTables(mem) && Represents(mem, l2Start, history) && InScan(history)
    ensures UserTables.KernelClosed(mem)
  {
    TableDesc(L1_BASE_PHYS);
    TableDesc(L2_BASE_PHYS);
    TableDesc(L2_INDEX3_BASE_PHYS);
    forall j | 0 <= j < 512 && IsTable(Entry(mem, L2_INDEX3_BASE_PHYS, j))
      ensures 0x8000_0000 <= PageBase(Entry(mem, L2_INDEX3_BASE_PHYS, j)) <= 0x8020_0000 - TABLE_SIZE
    {
      HeapTableIsInArea(mem, l2Start, history, j);
    }
  }

  class PageMapper {
    const mmu: Mmu
    ghost var history: seq<nat>   // pages mapped so far

    constructor (mmu: Mmu)
      requires Layout(mmu.l2Start) && KernelWindows(mmu.mem, mmu.l2Start) && Unlinked(mmu.mem, mmu.l2Start)
      requires mmu.ttbr0 == L0_BASE_PHYS && mmu.ttbr1 == L0_BASE_PHYS && !mmu.tablesReady
      ensures this.mmu == mmu && history == [] && Valid()
    {
      this.mmu, history := mmu, [];
    }

    /** Until the tables are linked the kernel runs on its own TTBR0: the first mapping
        writes through low addresses. */
    ghost predicate Valid()
      reads this, mmu
    {
      && Layout(mmu.l2Start) && KernelWindows(mmu.mem, mmu.l2Start) && mmu.ttbr1 == L0_BASE_PHYS
      && InScan(history)
      && if mmu.tablesReady then Represents(mmu.mem, mmu.l2Start, history)
         else history == [] && mmu.ttbr0 == L0_BASE_PHYS && Unlinked(mmu.mem, mmu.l2Start)
    }

    /** The one-time part of map_pagetable_entry. It runs while no page is mapped, so it
        erases no entry. */
    method LinkTables()
      requires Valid() && !mmu.tablesReady
      modifies mmu`mem, mmu`tablesReady
      ensures Valid() && mmu.tablesReady
      ensures SameOutsideHeap(old(mmu.mem), mmu.mem, mmu.l2Start)
    {
      ghost var was := mmu.mem;
      ClearWords(HIGH, mmu.l2Start, CLEARED_WORDS);
      ghost var cleared := mmu.mem;
      ClearWords(0, L3_INDEX0_BASE_PHYS, 512);
      ghost var both := mmu.mem;
      mmu.StoreVirtual(L1_BASE_PHYS + 8 * 3, MakeTableDesc(L2_INDEX3_BASE_PHYS));
      mmu.tablesReady := true;
      forall j | 0 <= j < 512 ensures Entry(mmu.mem, L2_INDEX3_BASE_PHYS, j) == Entry(was, L2_INDEX3_BASE_PHYS, j) {
        assert Entry(cleared, L2_INDEX3_BASE_PHYS, j) == Entry(was, L2_INDEX3_BASE_PHYS, j);
      }
      forall s | 0 <= s < AREA_WORDS ensures Entry(mmu.mem, mmu.l2Start, s) == 0 {
        assert Entry(cleared, mmu.l2Start, s) == if s < CLEARED_WORDS then 0 else Entry(was, mmu.l2Start, s);
        assert Entry(both, mmu.l2Start, s) == 0;
      }
    }

    /** Clears n doublewords at `table`, through the high or the low alias. */
    method ClearWords(alias: int, table: int, n: nat)
      requires Layout(mmu.l2Start) && KernelWindows(mmu.mem, mmu.l2Start)
      requires mmu.ttbr0 == L0_BASE_PHYS && mmu.ttbr1 == L0_BASE_PHYS && (alias == HIGH || alias == 0)
      requires L2_INDEX3_BASE_PHYS + TABLE_SIZE <= table && table + 8 * n <= 0x8020_0000
      modifies mmu`mem
      ensures KernelWindows(mmu.mem, mmu.l2Start)
      ensures forall a :: Read(mmu.mem, a) == if Within(a, table, n) then 0 else Read(old(mmu.mem), a)
    {
      ghost var was := mmu.mem;
      var i := 0;
      while i < n
        invariant 0 <= i <= n && KernelWindows(mmu.mem, mmu.l2Start)
        invariant forall a :: Read(mmu.mem, a) == if Within(a, table, i) then 0 else Read(was, a)
      {
        ghost var before, a0 := mmu.mem, table + 8 * i;
        HighAlias(a0);
        mmu.StoreVirtual(alias + table + 8 * i, 0);
        assert mmu.mem == before[a0 := 0];
        OneMoreCleared(was, before, mmu.mem, table, i);
        i := i + 1;
      }
    }

    /** set_table_entry through the high alias of a table. */
    method SetTableEntry(table: int, i: nat, v: int)
      requires Layout(mmu.l2Start) && KernelWindows(mmu.mem, mmu.l2Start) && mmu.ttbr1 == L0_BASE_PHYS
      requires L2_INDEX3_BASE_PHYS <= table && table + 8 * i < 0x8020_0000
      modifies mmu`mem
      ensures KernelWindows(mmu.mem, mmu.l2Start)
      ensures mmu.mem == old(mmu.mem)[table + 8 * i := v]
    {
      HighAlias(table + 8 * i);
      mmu.StoreVirtual(HIGH + table + 8 * i, v);
    }

    /** One turn of map_pagetable_entry's loop: the two writes that map page q. */
    method MapOnePage(va: nat, pa: nat, ghost q: nat)
      requires Valid() && mmu.tablesReady && q < SCANNED_PAGES && pa == PagePa(q) && va == HIGH + pa
      modifies this, mmu`mem
      ensures Valid() && history == old(history) + [q]
      ensures SameOutsideHeap(old(mmu.mem), mmu.mem, mmu.l2Start)
    {
      ghost var was := mmu.mem;
      PageIndices(q, 0);
      SlotInArea(q);
      var l2Index, l3Index := CalcIndexL2(va), CalcIndexL3(va);
      var l3Table := mmu.l2Start + 512 * l2Index;
      SetTableEntry(L2_INDEX3_BASE_PHYS, l2Index, MakeTableDesc(l3Table));
      SetTableEntry(l3Table, l3Index, MakeL3BlockDesc(pa));
      assert mmu.mem == PutPage(was, mmu.l2Start, q) by {
        assert l3Table + 8 * l3Index == mmu.l2Start + 8 * Slot(q);
      }
      PutPageRepresents(was, mmu.l2Start, history, q);
      PutPageFrame(was, mmu.l2Start, q);
      history := history + [q];
    }

    /** Refuses more than 20 pages. */
    method MapPagetableEntry(va: nat, pa: nat, total: nat, ghost first: nat) returns (mapped: bool)
      requires Valid()
      requires 0 < total <= MAX_MAPPED ==> pa == PagePa(first) && va == HIGH + pa && first + total <= SCANNED_PAGES
      modifies this, mmu`mem, mmu`tablesReady
      ensures Valid() && (mapped <==> total <= 20)
      ensures history == old(history) + if mapped then From(first, total) else []
      ensures SameOutsideHeap(old(mmu.mem), mmu.mem, mmu.l2Start)
      ensures mapped && total > 0 ==> mmu.tablesReady
    {
      if total > 20 { return false; }
      var l1Index := CalcIndexL1(HIGH + PHYS_BASE_ADDR);
      if l1Index != 3 { return false; }
      if !mmu.tablesReady {
        LinkTables();
      }
      ghost var before := history;
      var i := 0;
      while i < total
        invariant 0 <= i <= total && Valid() && mmu.tablesReady
        invariant history == before + From(first, i)
        invariant SameOutsideHeap(old(mmu.mem), mmu.mem, mmu.l2Start)
      {
        MapOnePage(va + 4096 * i, pa + 4096 * i, first + i);
        assert From(first, i + 1) == From(first, i) + [first + i];
        i := i + 1;
      }
      mapped := true;
    }
  }

  lemma OneMoreCleared(was: Memory, before: Memory, after: Memory, table: int, i: nat)
    requires after == before[table + 8 * i := 0]
    requires forall a :: Read(before, a) == if Within(a, table, i) then 0 else Read(was, a)
    ensures forall a :: Read(after, a) == if Within(a, table, i + 1) then 0 else Read(was, a)
  {
    forall a ensures Read(after, a) == if Within(a, table, i + 1) then 0 else Read(was, a) {
      OneMoreWithin(a, table, i);
    }
  }

  lemma OneMoreWithin(a: int, table: int, i: nat)
    ensures Within(a, table, i + 1) <==> Within(a, table, i) || a == table + 8 * i
  {
  }

  predicate Within(a: int, table: int, n: nat) {
    table <= a < table + 8 * n && (a - table) % 8 == 0
  }

  /** What first fit takes from a prefix, whether or not there is enough. */
  lemma TakenFromPrefix(bits: seq<bool>, used: nat, n: nat)
    requires Prefix(bits, used) && used <= SCANNED_PAGES <= |bits| && n > 0
    ensures var free := FreeFrom(bits, 0, SCANNED_PAGES); var t := Min(n, |free|);
      && (forall i :: 0 <= i < t ==> free[..t][i] < |bits|)
      && t == Min(n, SCANNED_PAGES - used)
      && Prefix(MarkAll(bits, free[..t]), used + t)
      && (t > 0 ==> free[..t][0] == used)
  {
    PrefixFree(bits, used, 0, SCANNED_PAGES);
    PrefixAllocation(bits, used, Min(n, SCANNED_PAGES - used), SCANNED_PAGES);
  }

  /** kmalloc's state: the bitmap and the tables. */
  class Allocator {
    const pages: AllocateMem
    const mapper: PageMapper
    ghost var used: nat

    constructor (pages: AllocateMem, mapper: PageMapper)
      requires mapper.Valid() && mapper.history == []
      requires SCANNED_BYTES <= pages.buffer.Length && Prefix(pages.PageBits(), 0)
      ensures this.pages == pages && this.mapper == mapper
      ensures Valid() && Abstract() == Heap(0, [])
    {
      this.pages, this.mapper, used := pages, mapper, 0;
    }

    ghost predicate Valid()
      reads this, pages, pages.buffer, mapper, mapper.mmu
    {
      && mapper.Valid() && SCANNED_BYTES <= pages.buffer.Length
      && used <= SCANNED_PAGES && Prefix(pages.PageBits(), used)
    }

    ghost function Abstract(): Heap
      reads this, mapper
    {
      Heap(used, mapper.history)
    }

    /** The call of allocate_mem: the pages right behind those taken so far. */
    method TakePages(size: nat, res: array<BitIndex>) returns (total: nat)
      requires SCANNED_BYTES <= pages.buffer.Length && used <= SCANNED_PAGES && Prefix(pages.PageBits(), used)
      requires pages.Apart(res) && PagesFor(size) <= 64 == res.Length
      modifies `used, pages.buffer, res
      ensures used == Min(old(used) + PagesFor(size), SCANNED_PAGES) && Prefix(pages.PageBits(), used)
      ensures total == if old(used) + PagesFor(size) <= SCANNED_PAGES then PagesFor(size) else 0
      ensures total > 0 ==> PageOf(res[0]) == old(used)
    {
      TakenFromPrefix(pages.PageBits(), used, PagesFor(size));
      ghost var t := Min(PagesFor(size), |pages.Free()|);
      total := pages.Allocate(size, res);
      used := used + t;
    }

    /** The caller must not ask for more than the 64 pages of the local result array. When
        the pages run out, the address is that of whatever the array's first element names. */
    method Kmalloc(size: nat) returns (va: nat)
      requires Valid() && PagesFor(size) <= 64
      modifies this, pages.buffer, mapper, mapper.mmu`mem, mapper.mmu`tablesReady
      ensures Valid()
      ensures Abstract() == Allocated(old(Abstract()), PagesFor(size))
      ensures old(used) + PagesFor(size) <= 131088 ==>
                && va == HIGH + PagePa(old(used)) == 0xFFFF_0000_C000_0000 + 0x1000 * old(used)
                && mapper.history ==
                     old(mapper.history) + (if PagesFor(size) <= 20 then From(old(used), PagesFor(size)) else [])
      ensures SameOutsideHeap(old(mapper.mmu.mem), mapper.mmu.mem, mapper.mmu.l2Start)
    {
      var res := new BitIndex[64];
      ghost var first := used;
      var total := TakePages(size, res);
      var pa := BitIndexToPhys(res[0]);
      va := HIGH + pa;
      var _ := mapper.MapPagetableEntry(va, pa, total, first);
      assert From(first, 0) == [];
    }
  }

  // ----- Runs of kmalloc calls -----

  lemma {:induction false} UsedOfRun(counts: seq<nat>)
    requires Total(counts) <= SCANNED_PAGES
    ensures Run(counts).used == Total(counts)
    decreases |counts|
  {
    if counts != [] {
      var k := |counts| - 1;
      FirstOfPrefix(counts, k, k);
      UsedOfRun(counts[..k]);
    }
  }

  /** The sizes are those of the allocations from `from` on. */
  ghost predicate SizesOf(sizes: seq<nat>, counts: seq<nat>, from: nat) {
    |counts| == from + |sizes| && forall i :: 0 <= i < |sizes| ==> counts[from + i] == PagesFor(sizes[i])
  }

  /** A caller that has made the first `from` allocations of a run and makes the others. As
      long as the pages last, every address is that of the run's pages, and no two blocks
      share a byte. */
  method KmallocAll(heap: Allocator, sizes: seq<nat>, ghost counts: seq<nat>, ghost from: nat) returns (vas: seq<nat>)
    requires heap.Valid() && SizesOf(sizes, counts, from) && heap.Abstract() == Run(counts[..from])
    requires forall i :: 0 <= i < |sizes| ==> PagesFor(sizes[i]) <= 64
    modifies heap, heap.pages.buffer, heap.mapper, heap.mapper.mmu`mem, heap.mapper.mmu`tablesReady
    ensures heap.Valid() && heap.Abstract() == Run(counts) && |vas| == |sizes|
    ensures Total(counts) <= SCANNED_PAGES ==> Addresses(vas, counts, from) && Disjoint(vas, counts, from)
  {
    ghost var k := from;
    vas := [];
    var n := 0;
    while n < |sizes|
      invariant 0 <= n <= |sizes| && |vas| == n && k == from + n
      invariant heap.Valid() && heap.Abstract() == Run(counts[..k])
      invariant Total(counts) <= SCANNED_PAGES ==> Addresses(vas, counts, from)
    {
      assert counts[from + n] == PagesFor(sizes[n]);
      var va := KmallocNext(heap, sizes[n], counts, k);
      OneMoreAddress(vas, counts, from, va, k);
      vas := vas + [va];
      n, k := n + 1, k + 1;
    }
    assert counts[..k] == counts;
    BlocksAreDisjoint(vas, counts, from);
  }

  method KmallocNext(heap: Allocator, size: nat, ghost counts: seq<nat>, ghost k: nat) returns (va: nat)
    requires heap.Valid() && k < |counts| && heap.Abstract() == Run(counts[..k])
    requires PagesFor(size) == counts[k] && PagesFor(size) <= 64
    modifies heap, heap.pages.buffer, heap.mapper, heap.mapper.mmu`mem, heap.mapper.mmu`tablesReady
    ensures heap.Valid() && heap.Abstract() == Run(counts[..k + 1])
    ensures Total(counts) <= SCANNED_PAGES ==> va == HIGH + PagePa(First(counts, k))
  {
    AllocationOfRun(counts, k);
    va := heap.Kmalloc(size);
  }

  /** The addresses are those of the pages that the allocations from `from` on start at. */
  ghost predicate Addresses(vas: seq<nat>, counts: seq<nat>, from: nat) {
    && from + |vas| <= |counts|
    && forall i :: 0 <= i < |vas| ==> vas[i] == HIGH + PagePa(First(counts, from + i))
  }

  lemma OneMoreAddress(vas: seq<nat>, counts: seq<nat>, from: nat, va: nat, k: nat)
    requires k == from + |vas| < |counts|
    ensures Addresses(vas, counts, from) && va == HIGH + PagePa(First(counts, k)) ==>
              Addresses(vas + [va], counts, from)
  {
  }

  lemma AllocationOfRun(counts: seq<nat>, k: nat)
    requires k < |counts|
    ensures Run(counts[..k + 1]) == Allocated(Run(counts[..k]), counts[k])
    ensures Total(counts) <= SCANNED_PAGES ==>
              Run(counts[..k]).used == First(counts, k) && First(counts, k) + counts[k] <= SCANNED_PAGES
  {
    assert counts[..k + 1][..k] == counts[..k];
    if Total(counts) <= SCANNED_PAGES {
      AllocationsAreDisjoint(counts, k, |counts|);
      FirstOfPrefix(counts, k, k);
      UsedOfRun(counts[..k]);
    }
  }

  /** No two blocks share a byte. */
  ghost predicate Disjoint(vas: seq<nat>, counts: seq<nat>, from: nat)
    requires from + |vas| <= |counts|
  {
    forall i, k :: 0 <= i < k < |vas| ==> vas[i] + PAGE * counts[from + i] <= vas[k]
  }

  lemma BlocksAreDisjoint(vas: seq<nat>, counts: seq<nat>, from: nat)
    ensures Addresses(vas, counts, from) ==> Disjoint(vas, counts, from)
  {
    if Addresses(vas, counts, from) {
      forall i, k | 0 <= i < k < |vas| ensures vas[i] + PAGE * counts[from + i] <= vas[k] {
        AllocationsAreDisjoint(counts, from + i, from + k);
      }
    }
  }
}
