/** The per-process tables of kernel/core/mmu.c: map_user_to_physical and its one-page
    variant, and what any sequence of their calls translates. */
module UserTables {
  import opened Arithmetic
  import opened Translation
  import opened KernelTables

  const USER_PROCESS_2_TABLE_START := USER_PROCESS_1_TABLE_START + 0x6_0000
  const U64 := 0x1_0000_0000_0000_0000

  /** Every process id but 1 gets the tables of process 2. */
  function Root(id: int): nat {
    if id == 1 then USER_PROCESS_1_TABLE_START else USER_PROCESS_2_TABLE_START
  }

  function L1Of(root: nat): nat { root + 0x1_0000 }
  function L2Of(root: nat): nat { root + 0x2_0000 }
  function L3Of(root: nat): nat { root + 0x3_0000 }

  predicate IsRoot(root: nat) {
    root == USER_PROCESS_1_TABLE_START || root == USER_PROCESS_2_TABLE_START
  }

  /** One call: ten pages from `address` on, or one. */
  datatype Call = Call(id: int, address: nat, ten: bool)

  function PagesMapped(c: Call): nat { if c.ten then 10 else 1 }

  /** The i-th address of a run; address arithmetic is on 64 bits. */
  function RunAddress(address: nat, i: nat): nat { (address + 4096 * i) % U64 }

  // ----- The memory after a call -----

  function InstallMem(mem: Memory, root: nat, address: nat): Memory {
    mem[root + 8 * CalcIndexL0(address) := MakeTableDesc(L1Of(root))]
       [L1Of(root) + 8 * CalcIndexL1(address) := MakeTableDesc(L2Of(root))]
       [L2Of(root) + 8 * CalcIndexL2(address) := MakeTableDesc(L3Of(root))]
  }

  function PutPageMem(mem: Memory, root: nat, a: nat): Memory {
    mem[L3Of(root) + 8 * CalcIndexL3(a) := MakeL3BlockDesc(a)]
  }

  function PutRunMem(mem: Memory, root: nat, address: nat, n: nat): Memory {
    if n == 0 then mem else PutPageMem(PutRunMem(mem, root, address, n - 1), root, RunAddress(address, n - 1))
  }

  function CallMem(mem: Memory, c: Call): Memory {
    PutRunMem(InstallMem(mem, Root(c.id), c.address), Root(c.id), c.address, PagesMapped(c))
  }

  function CallsMem(mem: Memory, calls: seq<Call>): Memory {
    if calls == [] then mem else CallMem(CallsMem(mem, calls[..|calls| - 1]), calls[|calls| - 1])
  }

  predicate InUserTables(a: int, root: nat) {
    InTable(a, root) || InTable(a, L1Of(root)) || InTable(a, L2Of(root)) || InTable(a, L3Of(root))
  }

  // ----- The code -----

  ghost predicate Ready(mmu: Mmu)
    reads mmu
  {
    Layout(mmu.l2Start) && KernelWindows(mmu.mem, mmu.l2Start) && mmu.ttbr1 == L0_BASE_PHYS
  }

  /** set_table_entry through a _WRITABLE address: it is the physical entry at `table`. */
  method SetTableEntry(mmu: Mmu, table: int, i: nat, desc: int)
    requires Ready(mmu) && i < 512 && 0x80A0_0000 <= table <= 0x80BF_F000
    modifies mmu`mem
    ensures Ready(mmu) && mmu.mem == old(mmu.mem)[table + 8 * i := desc]
  {
    HighAlias(table + 8 * i);
    mmu.StoreVirtual(HIGH + table + 8 * i, desc);
  }

  /** The three upper entries of an address, which both mapping functions write first. */
  method InstallTables(mmu: Mmu, l0: nat, address: nat)
    requires Ready(mmu) && IsRoot(l0)
    modifies mmu`mem
    ensures Ready(mmu) && mmu.mem == InstallMem(old(mmu.mem), l0, address)
  {
    SetTableEntry(mmu, l0, CalcIndexL0(address), MakeTableDesc(l0 + 0x1_0000));
    SetTableEntry(mmu, l0 + 0x1_0000, CalcIndexL1(address), MakeTableDesc(l0 + 0x2_0000));
    SetTableEntry(mmu, l0 + 0x2_0000, CalcIndexL2(address), MakeTableDesc(l0 + 0x3_0000));
  }

  method MapUserToPhysical(mmu: Mmu, id: int, address: nat)
    requires Ready(mmu) && address < U64
    modifies mmu`mem
    ensures Ready(mmu) && mmu.mem == CallMem(old(mmu.mem), Call(id, address, true))
  {
    var l0 := if id == 1 then USER_PROCESS_1_TABLE_START else USER_PROCESS_2_TABLE_START;
    InstallTables(mmu, l0, address);
    ghost var installed := mmu.mem;
    var i := 0;
    while i < 10
      invariant 0 <= i <= 10 && Ready(mmu)
      invariant mmu.mem == PutRunMem(installed, l0, address, i)
    {
      var a := (address + 4096 * i) % U64;
      SetTableEntry(mmu, l0 + 0x3_0000, CalcIndexL3(a), MakeL3BlockDesc(a));
      i := i + 1;
    }
  }

  method MapUserToPhysicalTest(mmu: Mmu, id: int, address: nat)
    requires Ready(mmu) && address < U64
    modifies mmu`mem
    ensures Ready(mmu) && mmu.mem == CallMem(old(mmu.mem), Call(id, address, false))
  {
    var l0 := if id == 1 then USER_PROCESS_1_TABLE_START else USER_PROCESS_2_TABLE_START;
    InstallTables(mmu, l0, address);
    ghost var installed := mmu.mem;
    SetTableEntry(mmu, l0 + 0x3_0000, CalcIndexL3(address), MakeL3BlockDesc(address));
    DivModUnique(address, U64, 0, address);
    assert mmu.mem == PutRunMem(installed, l0, address, 1) by {
      assert PutRunMem(installed, l0, address, 0) == installed;
    }
  }

  method MapUser(mmu: Mmu, c: Call)
    requires Ready(mmu) && c.address < U64
    modifies mmu`mem
    ensures Ready(mmu) && mmu.mem == CallMem(old(mmu.mem), c)
  {
    if c.ten {
      MapUserToPhysical(mmu, c.id, c.address);
    } else {
      MapUserToPhysicalTest(mmu, c.id, c.address);
    }
  }

  // ----- What the four tables of a process hold: a direct-mapped store -----

  /** The installed indices of each level, and for each level-3 index the address its entry
      was last written for. */
  datatype Direct = Direct(i0: set<nat>, i1: set<nat>, i2: set<nat>, pages: map<nat, nat>)

  const ZERO_TABLES := Direct({}, {}, {}, map[])

  function Installing(d: Direct, a: nat): Direct {
    Direct(d.i0 + {CalcIndexL0(a)}, d.i1 + {CalcIndexL1(a)}, d.i2 + {CalcIndexL2(a)}, d.pages)
  }

  function Apply(d: Direct, c: Call): Direct {
    Installing(d, c.address).(pages := PutRun(d.pages, c.address, PagesMapped(c)))
  }

  function PutRun(pages: map<nat, nat>, address: nat, n: nat): map<nat, nat> {
    if n == 0 then pages
    else PutRun(pages, address, n - 1)[CalcIndexL3(RunAddress(address, n - 1)) := RunAddress(address, n - 1)]
  }

  /** What process id's calls leave in its store, whatever calls others make in between. */
  function StoreOf(id: int, calls: seq<Call>): Direct {
    if calls == [] then ZERO_TABLES
    else
      var before := StoreOf(id, calls[..|calls| - 1]);
      var c := calls[|calls| - 1];
      if Root(c.id) == Root(id) then Apply(before, c) else before
  }

  function UpperWord(installed: set<nat>, i: nat, next: nat): int {
    if i in installed then MakeTableDesc(next) else 0
  }

  function PageWord(pages: map<nat, nat>, i: nat): int {
    if i in pages then MakeL3BlockDesc(pages[i]) else 0
  }

  ghost predicate Represents(mem: Memory, root: nat, d: Direct) {
    && (forall i :: 0 <= i < 512 ==> Entry(mem, root, i) == UpperWord(d.i0, i, L1Of(root)))
    && (forall i :: 0 <= i < 512 ==> Entry(mem, L1Of(root), i) == UpperWord(d.i1, i, L2Of(root)))
    && (forall i :: 0 <= i < 512 ==> Entry(mem, L2Of(root), i) == UpperWord(d.i2, i, L3Of(root)))
    && (forall i :: 0 <= i < 512 ==> Entry(mem, L3Of(root), i) == PageWord(d.pages, i))
  }

  function DirectWalk(d: Direct, va: nat): Translated {
    if CalcIndexL0(va) in d.i0 && CalcIndexL1(va) in d.i1 && CalcIndexL2(va) in d.i2 && CalcIndexL3(va) in d.pages
    then To(d.pages[CalcIndexL3(va)] % VA48 / PAGE * PAGE + va % PAGE, true)
    else Fault
  }

  lemma WalkIsDirect(mem: Memory, root: nat, d: Direct, va: nat)
    requires IsRoot(root) && Represents(mem, root, d)
    ensures Walk(mem, root, va) == DirectWalk(d, va)
  {
    TableOfRoot(root);
    if CalcIndexL0(va) in d.i0 && CalcIndexL1(va) in d.i1 {
      LowerIsDirect(mem, root, d, va);
    }
  }

  lemma TableOfRoot(root: nat)
    requires IsRoot(root)
    ensures IsTable(MakeTableDesc(L1Of(root))) && PageBase(MakeTableDesc(L1Of(root))) == L1Of(root)
    ensures IsTable(MakeTableDesc(L2Of(root))) && PageBase(MakeTableDesc(L2Of(root))) == L2Of(root)
    ensures IsTable(MakeTableDesc(L3Of(root))) && PageBase(MakeTableDesc(L3Of(root))) == L3Of(root)
  {
    TableDesc(L1Of(root));
    TableDesc(L2Of(root));
    TableDesc(L3Of(root));
  }

  lemma LowerIsDirect(mem: Memory, root: nat, d: Direct, va: nat)
    requires IsRoot(root) && Represents(mem, root, d)
    requires CalcIndexL0(va) in d.i0 && CalcIndexL1(va) in d.i1
    ensures WalkL2(mem, L2Of(root), va) == DirectWalk(d, va)
  {
    TableOfRoot(root);
    if CalcIndexL3(va) in d.pages {
      L3BlockDesc(d.pages[CalcIndexL3(va)]);
    }
  }

  lemma {:induction false} PutRunRepresents(mem: Memory, root: nat, d: Direct, address: nat, n: nat)
    requires IsRoot(root) && Represents(mem, root, d)
    ensures Represents(PutRunMem(mem, root, address, n), root, d.(pages := PutRun(d.pages, address, n)))
    decreases n
  {
    if n > 0 {
      PutRunRepresents(mem, root, d, address, n - 1);
      var before := d.(pages := PutRun(d.pages, address, n - 1));
      PutPageRepresents(PutRunMem(mem, root, address, n - 1), root, before, RunAddress(address, n - 1));
    }
  }

  lemma PutPageRepresents(mem: Memory, root: nat, d: Direct, a: nat)
    requires IsRoot(root) && Represents(mem, root, d)
    ensures Represents(PutPageMem(mem, root, a), root, d.(pages := d.pages[CalcIndexL3(a) := a]))
  {
    var mem' := PutPageMem(mem, root, a);
    forall i | 0 <= i < 512
      ensures Entry(mem', root, i) == Entry(mem, root, i)
      ensures Entry(mem', L1Of(root), i) == Entry(mem, L1Of(root), i)
      ensures Entry(mem', L2Of(root), i) == Entry(mem, L2Of(root), i)
      ensures Entry(mem', L3Of(root), i) ==
        if i == CalcIndexL3(a) then MakeL3BlockDesc(a) else Entry(mem, L3Of(root), i)
    {
    }
  }

  lemma InstallRepresents(mem: Memory, root: nat, d: Direct, address: nat)
    requires IsRoot(root) && Represents(mem, root, d)
    ensures Represents(InstallMem(mem, root, address), root,
      Installing(d, address))
  {
    var mem' := InstallMem(mem, root, address);
    forall i | 0 <= i < 512
      ensures Entry(mem', root, i) == UpperWord(d.i0 + {CalcIndexL0(address)}, i, L1Of(root))
      ensures Entry(mem', L1Of(root), i) == UpperWord(d.i1 + {CalcIndexL1(address)}, i, L2Of(root))
      ensures Entry(mem', L2Of(root), i) == UpperWord(d.i2 + {CalcIndexL2(address)}, i, L3Of(root))
      ensures Entry(mem', L3Of(root), i) == Entry(mem, L3Of(root), i)
    {
      InstalledWords(mem, root, address, i);
    }
  }

  lemma InstalledWords(mem: Memory, root: nat, address: nat, i: nat)
    requires IsRoot(root) && i < 512
    ensures var mem' := InstallMem(mem, root, address);
      && Entry(mem', root, i) == Put(mem, root, i, CalcIndexL0(address), MakeTableDesc(L1Of(root)))
      && Entry(mem', L1Of(root), i) == Put(mem, L1Of(root), i, CalcIndexL1(address), MakeTableDesc(L2Of(root)))
      && Entry(mem', L2Of(root), i) == Put(mem, L2Of(root), i, CalcIndexL2(address), MakeTableDesc(L3Of(root)))
      && Entry(mem', L3Of(root), i) == Entry(mem, L3Of(root), i)
  {
  }

  /** Entry i of a table once entry k has been set. */
  function Put(mem: Memory, table: int, i: nat, k: nat, desc: int): int {
    if i == k then desc else Entry(mem, table, i)
  }

  lemma {:induction false} PutRunFrame(mem: Memory, root: nat, address: nat, n: nat, a: int)
    requires !InUserTables(a, root)
    ensures Read(PutRunMem(mem, root, address, n), a) == Read(mem, a)
    decreases n
  {
    if n > 0 {
      PutRunFrame(mem, root, address, n - 1, a);
    }
  }

  /** A call writes nothing outside the four tables of its own process. */
  lemma CallFrame(mem: Memory, c: Call, a: int)
    requires !InUserTables(a, Root(c.id))
    ensures Read(CallMem(mem, c), a) == Read(mem, a)
  {
    PutRunFrame(InstallMem(mem, Root(c.id), c.address), Root(c.id), c.address, PagesMapped(c), a);
  }

  lemma CallRepresents(mem: Memory, c: Call, id: int, d: Direct)
    requires Represents(mem, Root(id), d)
    ensures Represents(CallMem(mem, c), Root(id), if Root(c.id) == Root(id) then Apply(d, c) else d)
  {
    var root := Root(id);
    if Root(c.id) == root {
      InstallRepresents(mem, root, d, c.address);
      PutRunRepresents(InstallMem(mem, root, c.address), root,
        Installing(d, c.address),
        c.address, PagesMapped(c));
    } else {
      var mem' := CallMem(mem, c);
      forall i | 0 <= i < 512
        ensures Entry(mem', root, i) == Entry(mem, root, i)
        ensures Entry(mem', L1Of(root), i) == Entry(mem, L1Of(root), i)
        ensures Entry(mem', L2Of(root), i) == Entry(mem, L2Of(root), i)
        ensures Entry(mem', L3Of(root), i) == Entry(mem, L3Of(root), i)
      {
        CallFrame(mem, c, root + 8 * i);
        CallFrame(mem, c, L1Of(root) + 8 * i);
        CallFrame(mem, c, L2Of(root) + 8 * i);
        CallFrame(mem, c, L3Of(root) + 8 * i);
      }
    }
  }

  lemma {:induction false} CallsRepresent(mem: Memory, calls: seq<Call>, id: int)
    requires Represents(mem, Root(id), ZERO_TABLES)
    ensures Represents(CallsMem(mem, calls), Root(id), StoreOf(id, calls))
    decreases |calls|
  {
    if calls != [] {
      var k := |calls| - 1;
      CallsRepresent(mem, calls[..k], id);
      CallRepresents(CallsMem(mem, calls[..k]), calls[k], id, StoreOf(id, calls[..k]));
    }
  }

  /** After any calls of any processes, from zero tables, each process's walk is the lookup
      in its own direct-mapped store: no call of another process changes it. */
  lemma UserWalk(mem: Memory, calls: seq<Call>, id: int, va: nat)
    requires Represents(mem, Root(id), ZERO_TABLES)
    ensures Walk(CallsMem(mem, calls), Root(id), va) == DirectWalk(StoreOf(id, calls), va)
  {
    CallsRepresent(mem, calls, id);
    WalkIsDirect(CallsMem(mem, calls), Root(id), StoreOf(id, calls), va);
  }

  // ----- The store in terms of the calls -----

  /** Addresses whose level-3 entries process id's calls write, in order. */
  function Writes(id: int, calls: seq<Call>): seq<nat> {
    if calls == [] then []
    else
      var before := Writes(id, calls[..|calls| - 1]);
      var c := calls[|calls| - 1];
      if Root(c.id) == Root(id) then before + RunOf(c.address, PagesMapped(c)) else before
  }

  function RunOf(address: nat, n: nat): (run: seq<nat>)
    ensures |run| == n && forall i :: 0 <= i < n ==> run[i] == RunAddress(address, i)
  {
    seq(n, i requires 0 <= i => RunAddress(address, i))
  }

  ghost predicate LastWith(writes: seq<nat>, k: nat, w: nat) {
    exists i :: 0 <= i < |writes| && writes[i] == w && CalcIndexL3(w) == k
      && forall j :: i < j < |writes| ==> CalcIndexL3(writes[j]) != k
  }

  ghost predicate LastWrites(pages: map<nat, nat>, writes: seq<nat>) {
    && (forall k :: k in pages ==> LastWith(writes, k, pages[k]))
    && (forall i :: 0 <= i < |writes| ==> CalcIndexL3(writes[i]) in pages)
  }

  lemma OneMoreWrite(pages: map<nat, nat>, writes: seq<nat>, w: nat)
    requires LastWrites(pages, writes)
    ensures LastWrites(pages[CalcIndexL3(w) := w], writes + [w])
  {
    var pages', writes' := pages[CalcIndexL3(w) := w], writes + [w];
    forall k | k in pages' ensures LastWith(writes', k, pages'[k]) {
      if k == CalcIndexL3(w) {
        assert writes'[|writes|] == w;
      } else {
        var i :| 0 <= i < |writes| && writes[i] == pages[k] && CalcIndexL3(pages[k]) == k
          && forall j :: i < j < |writes| ==> CalcIndexL3(writes[j]) != k;
        assert writes'[i] == pages'[k];
        assert forall j :: i < j < |writes'| ==> CalcIndexL3(writes'[j]) != k;
      }
    }
  }

  lemma {:induction false} PutRunIsLast(pages: map<nat, nat>, writes: seq<nat>, address: nat, n: nat)
    requires LastWrites(pages, writes)
    ensures LastWrites(PutRun(pages, address, n), writes + RunOf(address, n))
    decreases n
  {
    if n == 0 {
      assert writes + RunOf(address, 0) == writes;
    } else {
      PutRunIsLast(pages, writes, address, n - 1);
      OneMoreWrite(PutRun(pages, address, n - 1), writes + RunOf(address, n - 1), RunAddress(address, n - 1));
      assert writes + RunOf(address, n) == writes + RunOf(address, n - 1) + [RunAddress(address, n - 1)];
    }
  }

  lemma {:induction false} StoreIsLastWrites(id: int, calls: seq<Call>)
    ensures LastWrites(StoreOf(id, calls).pages, Writes(id, calls))
    decreases |calls|
  {
    if calls != [] {
      var k := |calls| - 1;
      StoreIsLastWrites(id, calls[..k]);
      if Root(calls[k].id) == Root(id) {
        PutRunIsLast(StoreOf(id, calls[..k]).pages, Writes(id, calls[..k]), calls[k].address, PagesMapped(calls[k]));
      }
    }
  }

  /** Some call of the process installed the address's index of that level. */
  ghost predicate Installs0(id: int, calls: seq<Call>, va: nat) {
    exists i :: 0 <= i < |calls| && Root(calls[i].id) == Root(id) && CalcIndexL0(calls[i].address) == CalcIndexL0(va)
  }

  ghost predicate Installs1(id: int, calls: seq<Call>, va: nat) {
    exists i :: 0 <= i < |calls| && Root(calls[i].id) == Root(id) && CalcIndexL1(calls[i].address) == CalcIndexL1(va)
  }

  ghost predicate Installs2(id: int, calls: seq<Call>, va: nat) {
    exists i :: 0 <= i < |calls| && Root(calls[i].id) == Root(id) && CalcIndexL2(calls[i].address) == CalcIndexL2(va)
  }

  ghost predicate Installed(id: int, calls: seq<Call>, va: nat) {
    && Installs0(id, calls, va)
    && Installs1(id, calls, va)
    && Installs2(id, calls, va)
  }

  lemma {:induction false} StoreIndices(id: int, calls: seq<Call>, va: nat)
    ensures var d := StoreOf(id, calls);
      (CalcIndexL0(va) in d.i0 && CalcIndexL1(va) in d.i1 && CalcIndexL2(va) in d.i2) <==> Installed(id, calls, va)
    ensures CalcIndexL0(va) in StoreOf(id, calls).i0 <==> Installs0(id, calls, va)
    ensures CalcIndexL1(va) in StoreOf(id, calls).i1 <==> Installs1(id, calls, va)
    ensures CalcIndexL2(va) in StoreOf(id, calls).i2 <==> Installs2(id, calls, va)
    decreases |calls|
  {
    if calls != [] {
      var k := |calls| - 1;
      var before := calls[..k];
      StoreIndices(id, before, va);
      assert forall i :: 0 <= i < k ==> before[i] == calls[i];
      assert calls[k] == calls[|calls| - 1];
    }
  }

  ghost predicate Written(writes: seq<nat>, k: nat) {
    exists i :: 0 <= i < |writes| && CalcIndexL3(writes[i]) == k
  }

  lemma LastOfPages(pages: map<nat, nat>, writes: seq<nat>, k: nat, w: nat)
    requires LastWrites(pages, writes)
    ensures k in pages <==> Written(writes, k)
    ensures LastWith(writes, k, w) <==> k in pages && w == pages[k]
  {
    if LastWith(writes, k, w) {
      var i :| 0 <= i < |writes| && writes[i] == w && CalcIndexL3(w) == k
        && forall j :: i < j < |writes| ==> CalcIndexL3(writes[j]) != k;
      assert CalcIndexL3(writes[i]) == k;
      LastIsUnique(writes, k, w, pages[k]);
    }
    if k in pages {
      var i :| 0 <= i < |writes| && writes[i] == pages[k] && CalcIndexL3(pages[k]) == k
        && forall j :: i < j < |writes| ==> CalcIndexL3(writes[j]) != k;
      assert CalcIndexL3(writes[i]) == k;
    }
  }

  /** The user translation in full. From zero tables and after any calls, va translates if
      and only if each of its three table indices was installed by some call of the process
      and some call wrote a page with its bits 20:12; the result is the page written last
      with those bits, open to EL0. */
  lemma UserTranslation(mem: Memory, calls: seq<Call>, id: int, va: nat, w: nat)
    requires Represents(mem, Root(id), ZERO_TABLES)
    ensures Walk(CallsMem(mem, calls), Root(id), va).To? <==>
      Installed(id, calls, va) && Written(Writes(id, calls), CalcIndexL3(va))
    ensures Installed(id, calls, va) && LastWith(Writes(id, calls), CalcIndexL3(va), w) ==>
      Walk(CallsMem(mem, calls), Root(id), va) == To(w % VA48 / PAGE * PAGE + va % PAGE, true)
  {
    UserWalk(mem, calls, id, va);
    LookupTranslation(calls, id, va, w);
  }

  /** The same of the lookup in the process's store. */
  lemma LookupTranslation(calls: seq<Call>, id: int, va: nat, w: nat)
    ensures DirectWalk(StoreOf(id, calls), va).To? <==>
      Installed(id, calls, va) && Written(Writes(id, calls), CalcIndexL3(va))
    ensures Installed(id, calls, va) && LastWith(Writes(id, calls), CalcIndexL3(va), w) ==>
      DirectWalk(StoreOf(id, calls), va) == To(w % VA48 / PAGE * PAGE + va % PAGE, true)
  {
    StoreIndices(id, calls, va);
    StoreIsLastWrites(id, calls);
    LastOfPages(StoreOf(id, calls).pages, Writes(id, calls), CalcIndexL3(va), w);
  }

  lemma LastIsUnique(writes: seq<nat>, k: nat, w: nat, u: nat)
    requires LastWith(writes, k, w) && LastWith(writes, k, u)
    ensures w == u
  {
    var i :| 0 <= i < |writes| && writes[i] == w && CalcIndexL3(w) == k
      && forall j :: i < j < |writes| ==> CalcIndexL3(writes[j]) != k;
    var j :| 0 <= j < |writes| && writes[j] == u && CalcIndexL3(u) == k
      && forall l :: j < l < |writes| ==> CalcIndexL3(writes[l]) != k;
    assert i >= j && j >= i;
  }

  /** The page written last with index k, when there is one. */
  function LastWrite(id: int, calls: seq<Call>, k: nat): nat {
    var pages := StoreOf(id, calls).pages;
    if k in pages then pages[k] else 0
  }

  /** Exactly when an address translates to itself (to its low 48 bits): its indices are
      installed and the last page written with its bits 20:12 is its own. */
  lemma MapsToItself(mem: Memory, calls: seq<Call>, id: int, va: nat)
    requires Represents(mem, Root(id), ZERO_TABLES)
    ensures Walk(CallsMem(mem, calls), Root(id), va) == To(va % VA48, true) <==>
      Installed(id, calls, va) &&
      exists w: nat :: LastWith(Writes(id, calls), CalcIndexL3(va), w) && SamePage(w, va)
  {
    UserWalk(mem, calls, id, va);
    LookupToItself(calls, id, va);
  }

  lemma LookupToItself(calls: seq<Call>, id: int, va: nat)
    ensures DirectWalk(StoreOf(id, calls), va) == To(va % VA48, true) <==>
      Installed(id, calls, va) &&
      exists w: nat :: LastWith(Writes(id, calls), CalcIndexL3(va), w) && SamePage(w, va)
  {
    var t, writes, k := DirectWalk(StoreOf(id, calls), va), Writes(id, calls), CalcIndexL3(va);
    var last := LastWrite(id, calls, k);
    StoreIsLastWrites(id, calls);
    LastOfPages(StoreOf(id, calls).pages, writes, k, last);
    LookupTranslation(calls, id, va, last);
    forall w: nat | LastWith(writes, k, w) ensures w == last {
      LastIsUnique(writes, k, w, last);
    }
    PageOfLow48(va);
    if t == To(va % VA48, true) {
      SumsOfPage(last % VA48 / PAGE, va % VA48 / PAGE, va % PAGE);
      assert SamePage(last, va);
    }
  }

  lemma SumsOfPage(p: int, q: int, r: int)
    requires p * PAGE + r == q * PAGE + r
    ensures p == q
  {
  }

  /** Two pages of one process with the same bits 20:12 but different pages, mapped one after
      the other: the first address reaches the second page (address + 2 MiB, say). */
  lemma LaterCallTakesEntryOver(mem: Memory, id: int, a: nat, b: nat)
    requires Represents(mem, Root(id), ZERO_TABLES) && a < U64 && b < U64 && CalcIndexL3(a) == CalcIndexL3(b)
    ensures Walk(CallsMem(mem, [Call(id, a, false), Call(id, b, false)]), Root(id), a)
      == To(b % VA48 / PAGE * PAGE + a % PAGE, true)
  {
    var calls := [Call(id, a, false), Call(id, b, false)];
    DivModUnique(a, U64, 0, a);
    DivModUnique(b, U64, 0, b);
    var writes := Writes(id, calls);
    var first := calls[..1];
    assert first == [calls[0]] && first[..0] == [];
    assert Writes(id, first) == Writes(id, first[..0]) + RunOf(a, 1);
    assert RunOf(a, 1) == [a] && RunOf(b, 1) == [b];
    assert writes == Writes(id, first) + RunOf(b, 1);
    assert writes == [a, b] && writes[1] == b;
    assert LastWith(writes, CalcIndexL3(a), b);
    assert calls[0].address == a;
    UserTranslation(mem, calls, id, a, b);
  }

  // ----- The kernel's walks -----

  /** Every table the kernel's root leads to lies in the first window. */
  ghost predicate KernelClosed(mem: Memory) {
    && (forall i :: 0 <= i < 512 && IsTable(Entry(mem, L0_BASE_PHYS, i)) ==>
          PageBase(Entry(mem, L0_BASE_PHYS, i)) == L1_BASE_PHYS)
    && (forall i :: 0 <= i < 512 && IsTable(Entry(mem, L1_BASE_PHYS, i)) ==>
          PageBase(Entry(mem, L1_BASE_PHYS, i)) in {L2_BASE_PHYS, L2_INDEX3_BASE_PHYS})
    && L2Closed(mem, L2_BASE_PHYS) && L2Closed(mem, L2_INDEX3_BASE_PHYS)
  }

  ghost predicate L2Closed(mem: Memory, table: int) {
    forall i :: 0 <= i < 512 && IsTable(Entry(mem, table, i)) ==>
      0x8000_0000 <= PageBase(Entry(mem, table, i)) <= 0x8020_0000 - TABLE_SIZE
  }

  lemma InitIsClosed(mem: Memory, l2Start: int)
    requires Layout(l2Start) && InitTables(mem, l2Start)
    requires forall i :: 0 <= i < 512 ==> Entry(mem, L2_INDEX3_BASE_PHYS, i) == 0
    ensures KernelClosed(mem)
  {
    TableDesc(L1_BASE_PHYS);
    TableDesc(L2_BASE_PHYS);
    forall i | 0 <= i < 512 ensures !IsTable(Entry(mem, L2_BASE_PHYS, i)) {
      if Window(i) >= 0 {
        WindowDesc(i, l2Start);
      }
    }
  }

  ghost predicate SameBelow(mem: Memory, mem': Memory) {
    forall a :: 0x8000_0000 <= a < 0x8020_0000 ==> Read(mem', a) == Read(mem, a)
  }

  lemma ClosedWalk(mem: Memory, mem': Memory, va: nat)
    requires KernelClosed(mem) && SameBelow(mem, mem')
    ensures Walk(mem', L0_BASE_PHYS, va) == Walk(mem, L0_BASE_PHYS, va)
  {
    var d0 := Entry(mem, L0_BASE_PHYS, CalcIndexL0(va));
    assert Entry(mem', L0_BASE_PHYS, CalcIndexL0(va)) == d0;
    if IsTable(d0) {
      var d1 := Entry(mem, L1_BASE_PHYS, CalcIndexL1(va));
      assert Entry(mem', L1_BASE_PHYS, CalcIndexL1(va)) == d1;
      if IsTable(d1) {
        var table := PageBase(d1);
        var d2 := Entry(mem, table, CalcIndexL2(va));
        assert Entry(mem', table, CalcIndexL2(va)) == d2;
        if IsTable(d2) {
          assert Entry(mem', PageBase(d2), CalcIndexL3(va)) == Entry(mem, PageBase(d2), CalcIndexL3(va));
        }
      }
    }
  }

  lemma {:induction false} CallsStayAbove(mem: Memory, calls: seq<Call>)
    ensures SameBelow(mem, CallsMem(mem, calls))
    decreases |calls|
  {
    if calls != [] {
      var k := |calls| - 1;
      CallsStayAbove(mem, calls[..k]);
      forall a | 0x8000_0000 <= a < 0x8020_0000 ensures Read(CallsMem(mem, calls), a) == Read(mem, a) {
        CallFrame(CallsMem(mem, calls[..k]), calls[k], a);
      }
    }
  }

  /** Separation: no calls of any process change any kernel translation, and calls of other
      processes change no translation of this one. */
  lemma AddressSpacesAreSeparate(mem: Memory, calls: seq<Call>, more: seq<Call>, id: int, va: nat)
    requires KernelClosed(mem) && Represents(mem, Root(id), ZERO_TABLES)
    requires forall i :: 0 <= i < |more| ==> Root(more[i].id) != Root(id)
    ensures Walk(CallsMem(mem, calls), L0_BASE_PHYS, va) == Walk(mem, L0_BASE_PHYS, va)
    ensures Walk(CallsMem(mem, calls + more), Root(id), va) == Walk(CallsMem(mem, calls), Root(id), va)
  {
    CallsStayAbove(mem, calls);
    ClosedWalk(mem, CallsMem(mem, calls), va);
    OthersLeaveStore(id, calls, more);
    UserWalk(mem, calls, id, va);
    UserWalk(mem, calls + more, id, va);
  }

  lemma {:induction false} OthersLeaveStore(id: int, calls: seq<Call>, more: seq<Call>)
    requires forall i :: 0 <= i < |more| ==> Root(more[i].id) != Root(id)
    ensures StoreOf(id, calls + more) == StoreOf(id, calls)
    decreases |more|
  {
    if more == [] {
      assert calls + more == calls;
    } else {
      var k := |more| - 1;
      OthersLeaveStore(id, calls, more[..k]);
      assert (calls + more)[..|calls + more| - 1] == calls + more[..k];
    }
  }

  /** Whatever was written with some bits 20:12, it was one page only. */
  ghost predicate OnePagePerIndex(writes: seq<nat>) {
    forall i, j ::
      0 <= i < |writes| && 0 <= j < |writes| && CalcIndexL3(writes[i]) == CalcIndexL3(writes[j]) ==>
        SamePage(writes[i], writes[j])
  }

  /** A whole program of pages within one 2 MiB block: with pairwise different bits 20:12,
      every page of every run translates to itself. */
  lemma DistinctPagesMapToThemselves(mem: Memory, calls: seq<Call>, id: int, n: nat, i: nat, va: nat)
    requires Represents(mem, Root(id), ZERO_TABLES)
    requires n < |calls| && Root(calls[n].id) == Root(id) && i < PagesMapped(calls[n])
    requires SamePage(va, RunAddress(calls[n].address, i)) && SameBlock(va, calls[n].address)
    requires OnePagePerIndex(Writes(id, calls))
    ensures Walk(CallsMem(mem, calls), Root(id), va) == To(va % VA48, true)
  {
    var w, writes := RunAddress(calls[n].address, i), Writes(id, calls);
    RunIsWritten(id, calls, n, i);
    var m :| 0 <= m < |writes| && writes[m] == w;
    SamePageSameIndex(va, w);
    SameBlockSameIndices(va, calls[n].address);
    StoreIsLastWrites(id, calls);
    var u := LastWrite(id, calls, CalcIndexL3(va));
    LastOfPages(StoreOf(id, calls).pages, writes, CalcIndexL3(va), u);
    var l :| 0 <= l < |writes| && writes[l] == u && CalcIndexL3(u) == CalcIndexL3(va);
    assert SamePage(writes[l], writes[m]);
    MapsToItself(mem, calls, id, va);
  }

  predicate SamePage(a: nat, b: nat) { a % VA48 / PAGE == b % VA48 / PAGE }
  predicate SameBlock(a: nat, b: nat) { a % VA48 / MB2 == b % VA48 / MB2 }

  lemma SamePageSameIndex(a: nat, b: nat)
    requires SamePage(a, b)
    ensures CalcIndexL3(a) == CalcIndexL3(b)
  {
    IndexOfLow48(a);
    IndexOfLow48(b);
  }

  lemma IndexOfLow48(a: nat)
    ensures CalcIndexL3(a) == (a % VA48 / PAGE) % 512 && CalcIndexL2(a) == (a % VA48 / MB2) % 512
    ensures CalcIndexL1(a) == (a % VA48 / MB2) / 512 % 512 && CalcIndexL0(a) == (a % VA48 / MB2) / 0x4_0000 % 512
  {
    var q, r := a / VA48, a % VA48;
    DivModUnique(a, PAGE, q * 0x10_0000_0000 + r / PAGE, r % PAGE);
    DivModUnique(a / PAGE, 512, q * 0x800_0000 + r / PAGE / 512, r / PAGE % 512);
    DivModUnique(a, MB2, q * 0x800_0000 + r / MB2, r % MB2);
    DivModUnique(a / MB2, 512, q * 0x4_0000 + r / MB2 / 512, r / MB2 % 512);
    DivModUnique(a, GB, q * 0x4_0000 + r / MB2 / 512, (r / MB2 % 512) * MB2 + r % MB2);
    DivModUnique(a / GB, 512, q * 512 + r / MB2 / 512 / 512, r / MB2 / 512 % 512);
    DivModUnique(a, GB512, q * 512 + r / MB2 / 0x4_0000, (r / MB2 % 0x4_0000) * MB2 + r % MB2);
    DivModUnique(a / GB512, 512, q, r / MB2 / 0x4_0000);
  }

  lemma SameBlockSameIndices(a: nat, b: nat)
    requires SameBlock(a, b)
    ensures CalcIndexL0(a) == CalcIndexL0(b) && CalcIndexL1(a) == CalcIndexL1(b) && CalcIndexL2(a) == CalcIndexL2(b)
  {
    IndexOfLow48(a);
    IndexOfLow48(b);
  }

  lemma {:induction false} RunIsWritten(id: int, calls: seq<Call>, n: nat, i: nat)
    requires n < |calls| && Root(calls[n].id) == Root(id) && i < PagesMapped(calls[n])
    ensures RunAddress(calls[n].address, i) in Writes(id, calls)
    decreases |calls|
  {
    var k := |calls| - 1;
    if n == k {
      var run := RunOf(calls[k].address, PagesMapped(calls[k]));
      assert run[i] == RunAddress(calls[n].address, i);
      assert run[i] in run;
    } else {
      RunIsWritten(id, calls[..k], n, i);
    }
  }

  // ----- One ten-page run -----

  lemma RunIndex(a: nat, j: nat)
    ensures CalcIndexL3(RunAddress(a, j)) == (a / PAGE + j) % 512
  {
    var x := a + 4096 * j;
    var c, page := x / U64, a / PAGE + j;
    DivModUnique(x, PAGE, page, a % PAGE);
    DivModUnique(x % U64, PAGE, page - 0x10_0000_0000_0000 * c, a % PAGE);
    DivModUnique(page - 0x10_0000_0000_0000 * c, 512, page / 512 - 0x800_0000_0000 * c, page % 512);
  }

  lemma NearbyPagesDiffer(page: nat, i: nat, j: nat)
    requires i < j < i + 512
    ensures (page + i) % 512 != (page + j) % 512
  {
  }

  lemma SameIndicesSameBlock(a: nat, b: nat)
    requires CalcIndexL0(a) == CalcIndexL0(b) && CalcIndexL1(a) == CalcIndexL1(b) && CalcIndexL2(a) == CalcIndexL2(b)
    ensures SameBlock(a, b)
  {
    IndexOfLow48(a);
    IndexOfLow48(b);
    BlockFromIndices(a % VA48 / MB2);
    BlockFromIndices(b % VA48 / MB2);
  }

  lemma BlockFromIndices(block: nat)
    requires block < 0x800_0000
    ensures block == block / 0x4_0000 % 512 * 0x4_0000 + block / 512 % 512 * 512 + block % 512
  {
    var q := block / 512;
    var p := q / 512;
    DivModUnique(block, 0x4_0000, p, q % 512 * 512 + block % 512);
    DivModUnique(p, 512, 0, p);
  }

  lemma LaterPagesDiffer(a: nat, i: nat, j: nat)
    requires i < j < i + 512
    ensures CalcIndexL3(RunAddress(a, i)) != CalcIndexL3(RunAddress(a, j))
  {
    RunIndex(a, i);
    RunIndex(a, j);
    NearbyPagesDiffer(a / PAGE, i, j);
  }

  lemma WritesOfOneCall(id: int, c: Call)
    requires Root(c.id) == Root(id)
    ensures Writes(id, [c]) == RunOf(c.address, PagesMapped(c))
  {
    assert [c][..0] == [];
  }

  lemma RunIsLastWritten(id: int, address: nat, i: nat)
    requires i < 10
    ensures var w := RunAddress(address, i);
      LastWith(Writes(id, [Call(id, address, true)]), CalcIndexL3(w), w)
  {
    var writes, w := RunOf(address, 10), RunAddress(address, i);
    WritesOfOneCall(id, Call(id, address, true));
    assert writes[i] == w;
    forall j | i < j < 10 ensures CalcIndexL3(writes[j]) != CalcIndexL3(w) {
      LaterPagesDiffer(address, i, j);
    }
  }

  /** A ten-page call installs one level-2 index only: from zero tables, its i-th page reaches
      itself if it lies in the 2 MiB block of the first, and faults if it does not. */
  lemma RunReachesWithinBlock(mem: Memory, id: int, address: nat, i: nat)
    requires Represents(mem, Root(id), ZERO_TABLES) && i < 10
    ensures var w := RunAddress(address, i);
      Walk(CallsMem(mem, [Call(id, address, true)]), Root(id), w) ==
      if SameBlock(w, address) then To(w % VA48, true) else Fault
  {
    var calls, w := [Call(id, address, true)], RunAddress(address, i);
    RunIsLastWritten(id, address, i);
    MapsToItself(mem, calls, id, w);
    UserTranslation(mem, calls, id, w, w);
    assert calls[0].address == address;
    if SameBlock(w, address) {
      SameBlockSameIndices(w, address);
    } else if Installed(id, calls, w) {
      SameIndicesSameBlock(w, address);
    }
  }

  /** The run from 0x801FF000 crosses a 2 MiB boundary: its second page is the one written
      last with its bits 20:12, and still faults. */
  lemma CrossingRunFaults(mem: Memory, address: nat, va: nat)
    requires Represents(mem, Root(1), ZERO_TABLES) && address == 0x801F_F000 && va == 0x8020_0000
    ensures LastWith(Writes(1, [Call(1, address, true)]), CalcIndexL3(va), va)
    ensures Walk(CallsMem(mem, [Call(1, address, true)]), Root(1), va) == Fault
  {
    SecondPageCrosses(address, va);
    RunIsLastWritten(1, address, 1);
    RunReachesWithinBlock(mem, 1, address, 1);
  }

  lemma SecondPageCrosses(address: nat, va: nat)
    requires address == 0x801F_F000 && va == 0x8020_0000
    ensures RunAddress(address, 1) == va && !SameBlock(va, address)
  {
  }

  // ----- A run that is mapped last -----

  lemma LastOfRun(before: seq<nat>, address: nat, i: nat)
    requires i < 10
    ensures var w := RunAddress(address, i); LastWith(before + RunOf(address, 10), CalcIndexL3(w), w)
  {
    var run, w := RunOf(address, 10), RunAddress(address, i);
    var writes := before + run;
    assert writes[|before| + i] == w;
    forall j | |before| + i < j < |writes| ensures CalcIndexL3(writes[j]) != CalcIndexL3(w) {
      assert writes[j] == run[j - |before|];
      LaterPagesDiffer(address, i, j - |before|);
    }
  }

  lemma LastBeforeRun(before: seq<nat>, u: nat, address: nat)
    requires forall i :: 0 <= i < 10 ==> CalcIndexL3(RunAddress(address, i)) != CalcIndexL3(u)
    ensures LastWith(before + [u] + RunOf(address, 10), CalcIndexL3(u), u)
  {
    var run := RunOf(address, 10);
    var writes := before + [u] + run;
    assert writes[|before|] == u;
    forall j | |before| < j < |writes| ensures CalcIndexL3(writes[j]) != CalcIndexL3(u) {
      assert writes[j] == run[j - |before| - 1];
    }
  }

  /** A page that is mapped alone and then a run of ten: every page of the run within the
      block of its first reaches itself, and so does the single page unless one of the ten
      has its bits 20:12 and is another page. */
  lemma RunMappedLast(calls: seq<Call>, id: int, u: nat, address: nat, i: nat)
    requires u < U64 && i < 10
    ensures var all := calls + [Call(id, u, false), Call(id, address, true)]; var w := RunAddress(address, i);
      SameBlock(w, address) ==> DirectWalk(StoreOf(id, all), w) == To(w % VA48, true)
    ensures var all := calls + [Call(id, u, false), Call(id, address, true)];
      DirectWalk(StoreOf(id, all), u) == To(u % VA48, true) <==>
      forall j :: 0 <= j < 10 ==> NotTaken(u, RunAddress(address, j))
  {
    var c, e := Call(id, u, false), Call(id, address, true);
    var all, w, before := calls + [c, e], RunAddress(address, i), Writes(id, calls);
    WritesOfLastTwo(calls, id, u, address);
    LookupToItself(all, id, w);
    LookupToItself(all, id, u);
    LastOfRun(before + [u], address, i);
    assert all[|calls|] == c && all[|calls| + 1] == e;
    if SameBlock(w, address) {
      SameBlockSameIndices(w, address);
    }
    if forall j :: 0 <= j < 10 ==> CalcIndexL3(RunAddress(address, j)) != CalcIndexL3(u) {
      LastBeforeRun(before, u, address);
    } else {
      var j :| 0 <= j < 10 && CalcIndexL3(RunAddress(address, j)) == CalcIndexL3(u);
      TakenByRun(all, id, u, before + [u], address, j);
    }
  }

  /** Another page does not stand in the way of page u. */
  predicate NotTaken(u: nat, w: nat) {
    CalcIndexL3(w) != CalcIndexL3(u) || SamePage(w, u)
  }

  lemma WritesOfLastTwo(calls: seq<Call>, id: int, u: nat, address: nat)
    requires u < U64
    ensures Writes(id, calls + [Call(id, u, false), Call(id, address, true)])
      == Writes(id, calls) + [u] + RunOf(address, 10)
  {
    var c, e := Call(id, u, false), Call(id, address, true);
    var all, one := calls + [c, e], calls + [c];
    assert all[..|all| - 1] == one && one[..|one| - 1] == calls;
    DivModUnique(u, U64, 0, u);
    assert RunOf(u, 1) == [u];
  }

  lemma TakenByRun(all: seq<Call>, id: int, u: nat, before: seq<nat>, address: nat, j: nat)
    requires j < 10 && CalcIndexL3(RunAddress(address, j)) == CalcIndexL3(u)
    requires Writes(id, all) == before + RunOf(address, 10)
    ensures (exists w: nat :: LastWith(Writes(id, all), CalcIndexL3(u), w) && SamePage(w, u)) <==>
      forall k :: 0 <= k < 10 ==> NotTaken(u, RunAddress(address, k))
  {
    var w := RunAddress(address, j);
    LastOfRun(before, address, j);
    forall v: nat | LastWith(Writes(id, all), CalcIndexL3(u), v) ensures v == w {
      LastIsUnique(Writes(id, all), CalcIndexL3(u), v, w);
    }
    forall k | 0 <= k < 10 && k != j ensures NotTaken(u, RunAddress(address, k)) {
      LaterPagesDiffer(address, if k < j then k else j, if k < j then j else k);
    }
  }

  // ----- A run that is not mapped last -----

  /** The last write with an index, when more writes follow. */
  lemma LastOfSuffix(before: seq<nat>, later: seq<nat>, k: nat, w: nat)
    ensures Written(later, k) ==> (LastWith(before + later, k, w) <==> LastWith(later, k, w))
    ensures !Written(later, k) ==> (LastWith(before + later, k, w) <==> LastWith(before, k, w))
  {
    var all, n := before + later, |before|;
    assert forall j :: 0 <= j < |later| ==> all[n + j] == later[j];
    assert forall j :: n <= j < |all| ==> all[j] == later[j - n];
    if LastWith(all, k, w) {
      FromWhole(before, later, k, w);
    }
    if Written(later, k) && LastWith(later, k, w) {
      var i :| 0 <= i < |later| && later[i] == w && CalcIndexL3(w) == k
        && forall j :: i < j < |later| ==> CalcIndexL3(later[j]) != k;
      assert all[n + i] == w;
    }
    if !Written(later, k) && LastWith(before, k, w) {
      var i :| 0 <= i < n && before[i] == w && CalcIndexL3(w) == k
        && forall j :: i < j < n ==> CalcIndexL3(before[j]) != k;
      assert all[i] == w;
    }
  }

  lemma FromWhole(before: seq<nat>, later: seq<nat>, k: nat, w: nat)
    requires LastWith(before + later, k, w)
    ensures if Written(later, k) then LastWith(later, k, w) else LastWith(before, k, w)
  {
    var all, n := before + later, |before|;
    var i :| 0 <= i < |all| && all[i] == w && CalcIndexL3(w) == k
      && forall j :: i < j < |all| ==> CalcIndexL3(all[j]) != k;
    if i < n {
      assert before[i] == w;
      forall j | i < j < n ensures CalcIndexL3(before[j]) != k {
        assert all[j] == before[j];
      }
      forall j | 0 <= j < |later| ensures CalcIndexL3(later[j]) != k {
        assert all[n + j] == later[j];
      }
    } else {
      assert later[i - n] == w;
      forall j | i - n < j < |later| ensures CalcIndexL3(later[j]) != k {
        assert all[n + j] == later[j];
      }
    }
  }

  /** The pages written later with the address's bits 20:12 end with its own page, or there
      are none. */
  ghost predicate Survives(v: nat, later: seq<nat>) {
    forall w: nat :: LastWith(later, CalcIndexL3(v), w) ==> SamePage(w, v)
  }

  /** A page of a run with other calls behind it. */
  lemma RunBeforeOthers(id: int, calls: seq<Call>, before: seq<nat>, address: nat, later: seq<nat>, i: nat)
    requires i < 10 && Writes(id, calls) == before + RunOf(address, 10) + later
    ensures var v := RunAddress(address, i);
      DirectWalk(StoreOf(id, calls), v) == To(v % VA48, true) <==> Installed(id, calls, v) && Survives(v, later)
  {
    var v := RunAddress(address, i);
    LookupToItself(calls, id, v);
    LastOfRun(before, address, i);
    LastOwn(before + RunOf(address, 10), later, v);
  }

  lemma LastOwn(written: seq<nat>, later: seq<nat>, v: nat)
    requires LastWith(written, CalcIndexL3(v), v)
    ensures (exists w: nat :: LastWith(written + later, CalcIndexL3(v), w) && SamePage(w, v)) <==> Survives(v, later)
  {
    var k := CalcIndexL3(v);
    SomeLast(later, k);
    if Written(later, k) {
      var u: nat :| LastWith(later, k, u);
      LastOfSuffix(written, later, k, u);
      forall w: nat | LastWith(written + later, k, w) ensures w == u {
        LastIsUnique(written + later, k, w, u);
      }
      assert Survives(v, later) <==> SamePage(u, v);
    } else {
      LastOfSuffix(written, later, k, v);
      assert SamePage(v, v) && LastWith(written + later, k, v);
    }
  }

  lemma {:induction false} SomeLast(writes: seq<nat>, k: nat)
    ensures Written(writes, k) <==> exists w: nat :: LastWith(writes, k, w)
    ensures forall w: nat, u: nat :: LastWith(writes, k, w) && LastWith(writes, k, u) ==> w == u
    decreases |writes|
  {
    forall w: nat, u: nat | LastWith(writes, k, w) && LastWith(writes, k, u) ensures w == u {
      LastIsUnique(writes, k, w, u);
    }
    if Written(writes, k) {
      var n := |writes| - 1;
      if CalcIndexL3(writes[n]) == k {
        assert LastWith(writes, k, writes[n]);
      } else {
        var i :| 0 <= i < |writes| && CalcIndexL3(writes[i]) == k;
        assert writes[..n][i] == writes[i];
        SomeLast(writes[..n], k);
        var w: nat :| LastWith(writes[..n], k, w);
        LastOfSuffix(writes[..n], [writes[n]], k, w);
        assert writes == writes[..n] + [writes[n]];
        assert !Written([writes[n]], k);
      }
    }
  }

  /** What two runs, a single page and another run write. */
  lemma WritesOfFour(calls: seq<Call>, id: int, a: nat, b: nat, u: nat, address: nat)
    requires u < U64
    ensures Writes(id, calls + [Call(id, a, true), Call(id, b, true), Call(id, u, false), Call(id, address, true)])
      == Writes(id, calls) + RunOf(a, 10) + RunOf(b, 10) + [u] + RunOf(address, 10)
  {
    var c, e := Call(id, a, true), Call(id, b, true);
    var all, one := calls + [c, e], calls + [c];
    assert all[..|all| - 1] == one && one[..|one| - 1] == calls;
    WritesOfLastTwo(all, id, u, address);
    assert calls + [c, e, Call(id, u, false), Call(id, address, true)]
      == all + [Call(id, u, false), Call(id, address, true)];
  }
}
