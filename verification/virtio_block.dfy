/** The virtio block request path of kernel/drivers/block/block_driver.c, against a device
    that walks descriptor chains (VIRTIO 1.1, sections 2.6.4 to 2.6.13). */
module VirtioBlock {
  import opened Arithmetic
  import opened Translation
  import opened KernelTables
  import opened Kmalloc
  import opened PageBitmap

  const QUEUE_SIZE := 12
  const SLOTS := 12
  const VIRTIO_BLK_T_IN := 0
  const VIRTIO_BLK_T_OUT := 1
  const VIRTIO_DESC_F_NEXT := 1
  const VIRTIO_DESC_F_WRITE := 2
  const U16 := 0x1_0000
  const U32 := 0x1_0000_0000

  datatype Desc = Desc(addr: nat, len: nat, flags: nat, next: nat)
  datatype Header = Header(kind: nat, reserved: nat, sector: nat)

  // ----- The slot table -----

  /** The first slot that is 0, or -1. */
  function FirstFree(slots: seq<nat>): (i: int)
    ensures -1 <= i < |slots|
    ensures i >= 0 ==> slots[i] == 0 && forall j :: 0 <= j < i ==> slots[j] != 0
    ensures i == -1 ==> forall j :: 0 <= j < |slots| ==> slots[j] != 0
  {
    if |slots| == 0 then -1
    else
      var before := FirstFree(slots[..|slots| - 1]);
      if before >= 0 then before else if slots[|slots| - 1] == 0 then |slots| - 1 else -1
  }

  /** A claim: the slot taken, and the table behind it. */
  function Claim(slots: seq<nat>): seq<nat> {
    if FirstFree(slots) >= 0 then slots[FirstFree(slots) := 1] else slots
  }

  /** The descriptor index a claim returns. */
  function Head(slots: seq<nat>): int {
    if FirstFree(slots) >= 0 then 3 * FirstFree(slots) else -1
  }

  function Claimed(slots: seq<nat>, n: nat): seq<nat> {
    if n == 0 then slots else Claim(Claimed(slots, n - 1))
  }

  /** What the (n + 1)-th claim in a row returns. */
  function NthHead(slots: seq<nat>, n: nat): int {
    Head(Claimed(slots, n))
  }

  /** The triples of two successful claims in a row of claims without release never overlap. */
  lemma {:induction false} TriplesAreDisjoint(slots: seq<nat>, m: nat, n: nat)
    requires m < n && NthHead(slots, m) >= 0 && NthHead(slots, n) >= 0
    ensures NthHead(slots, m) + 2 < NthHead(slots, n)
  {
    TakenStaysTaken(slots, m, n);
  }

  lemma {:induction false} TakenStaysTaken(slots: seq<nat>, m: nat, n: nat)
    requires m < n && FirstFree(Claimed(slots, m)) >= 0
    ensures |Claimed(slots, n)| == |Claimed(slots, m)|
    ensures forall j :: 0 <= j <= FirstFree(Claimed(slots, m)) ==> Claimed(slots, n)[j] != 0
    decreases n
  {
    if n > m + 1 {
      TakenStaysTaken(slots, m, n - 1);
    }
  }

  function CountFree(slots: seq<nat>): nat {
    if |slots| == 0 then 0 else CountFree(slots[..|slots| - 1]) + if slots[|slots| - 1] == 0 then 1 else 0
  }

  lemma {:induction false} NoneFree(slots: seq<nat>)
    ensures CountFree(slots) == 0 <==> FirstFree(slots) == -1
  {
    if |slots| > 0 {
      NoneFree(slots[..|slots| - 1]);
    }
  }

  lemma {:induction false} OneLessFree(slots: seq<nat>)
    requires FirstFree(slots) >= 0
    ensures CountFree(Claim(slots)) == CountFree(slots) - 1
  {
    var k, f := |slots| - 1, FirstFree(slots);
    if FirstFree(slots[..k]) >= 0 {
      OneLessFree(slots[..k]);
      assert Claim(slots)[..k] == Claim(slots[..k]);
    } else {
      assert Claim(slots)[..k] == slots[..k];
    }
  }

  /** Claims without release succeed exactly as often as there were free slots: -1 is
      returned exactly when all are taken. */
  lemma {:induction false} ClaimsCountFree(slots: seq<nat>, n: nat)
    ensures CountFree(Claimed(slots, n)) == if n <= CountFree(slots) then CountFree(slots) - n else 0
    ensures NthHead(slots, n) == -1 <==> n >= CountFree(slots)
    decreases n
  {
    NoneFree(Claimed(slots, n));
    if n > 0 {
      ClaimsCountFree(slots, n - 1);
      NoneFree(Claimed(slots, n - 1));
      if FirstFree(Claimed(slots, n - 1)) >= 0 {
        OneLessFree(Claimed(slots, n - 1));
      }
    }
  }

  /** The table after a claim and the release that follows it: the slot numbered like the
      descriptor is cleared, if there is one. */
  function Released(slots: seq<nat>): seq<nat>
    requires FirstFree(slots) >= 0
  {
    var h := Head(slots);
    if h < |slots| then Claim(slots)[h := 0] else Claim(slots)
  }

  /** The release restores the table if and only if slot 0 was claimed. */
  lemma ReleaseRestoresOnlySlotZero(slots: seq<nat>)
    requires FirstFree(slots) >= 0
    ensures Released(slots) == slots <==> FirstFree(slots) == 0
  {
    var i := FirstFree(slots);
    if i > 0 {
      assert Released(slots)[i] == 1;
    }
  }

  ghost predicate AllFree(slots: seq<nat>) {
    |slots| == SLOTS && forall i :: 0 <= i < SLOTS ==> slots[i] == 0
  }

  /** From an empty table the claims are 0, 3, 6, ... 33: twelve of them, the first four with
      their whole triple inside the queue of 12 descriptors. */
  lemma {:induction false} ClaimsFromEmpty(slots: seq<nat>, n: nat)
    requires AllFree(slots)
    ensures |Claimed(slots, n)| == SLOTS
    ensures forall i :: 0 <= i < SLOTS ==> (Claimed(slots, n)[i] != 0 <==> i < n)
    ensures NthHead(slots, n) == if n < SLOTS then 3 * n else -1
    ensures 0 <= NthHead(slots, n) && NthHead(slots, n) + 2 < QUEUE_SIZE <==> n < 4
    decreases n
  {
    if n > 0 {
      ClaimsFromEmpty(slots, n - 1);
    }
    assert n < SLOTS ==> Claimed(slots, n)[n] == 0;
  }

  // ----- The device -----

  predicate HasNext(d: Desc) { d.flags % 2 == 1 }
  predicate DeviceWrites(d: Desc) { d.flags / 2 % 2 == 1 }

  datatype Chain = Chain(descs: seq<Desc>) | Broken

  /** The chain from a head; at most `fuel` descriptors, all inside the queue. */
  function WalkChain(desc: seq<Desc>, head: nat, fuel: nat): Chain
    decreases fuel
  {
    if fuel == 0 || head >= QUEUE_SIZE || head >= |desc| then Broken
    else if !HasNext(desc[head]) then Chain([desc[head]])
    else
      match WalkChain(desc, desc[head].next, fuel - 1)
      case Chain(rest) => Chain([desc[head]] + rest)
      case Broken => Broken
  }

  /** Section 2.6.4.2: device-writable descriptors come after device-readable ones. */
  predicate ReadableFirst(descs: seq<Desc>) {
    forall i, j :: 0 <= i < j < |descs| && DeviceWrites(descs[i]) ==> DeviceWrites(descs[j])
  }

  /** What the device makes of one available entry. */
  datatype Served =
    | Request(head: nat, kind: nat, sector: nat, data: nat, length: nat, toMemory: bool, status: nat)
    | Rejected

  /** What stands at a physical address; memory that was never written is 0. */
  function HeaderAt(headers: map<int, Header>, pa: int): Header {
    if pa in headers then headers[pa] else Header(0, 0, 0)
  }

  /** A request is a 16-byte readable header, one data buffer and one writable status byte. */
  function Serve(desc: seq<Desc>, headers: map<int, Header>, head: nat): (answer: Served)
    ensures answer.Request? ==> answer.head == head
  {
    match WalkChain(desc, head, QUEUE_SIZE)
    case Broken => Rejected
    case Chain(ds) =>
      if |ds| == 3 && ReadableFirst(ds) && !DeviceWrites(ds[0]) && ds[0].len == 16
         && DeviceWrites(ds[2]) && ds[2].len == 1
      then
        var header := HeaderAt(headers, ds[0].addr);
        Request(head, header.kind, header.sector, ds[1].addr, ds[1].len, DeviceWrites(ds[1]), ds[2].addr)
      else Rejected
  }

  /** The disk's bytes, and the memory that requests name as their data buffers. */
  datatype World = World(disk: int -> int, memory: int -> int)

  function Copied(from: int -> int, src: int, to: int -> int, dst: int, n: nat): int -> int {
    a => if dst <= a < dst + n then from(src + (a - dst)) else to(a)
  }

  /** What the device does with a request (VIRTIO 1.1, section 5.2.6): sectors have 512 bytes;
      a read fills a writable buffer, a write takes a readable one; everything else is an
      error and moves nothing. */
  function Execute(answer: Served, w: World): World {
    match answer
    case Rejected => w
    case Request(_, kind, sector, data, length, toMemory, _) =>
      if length % 512 != 0 then w
      else if kind == 0 && toMemory then w.(memory := Copied(w.disk, 512 * sector, w.memory, data, length))
      else if kind == 1 && !toMemory then w.(disk := Copied(w.memory, data, w.disk, 512 * sector, length))
      else w
  }

  /** The `n` bytes from `src` on stand at `dst`, and nothing else has changed. */
  ghost predicate Moved(from: int -> int, src: int, to: int -> int, to': int -> int, dst: int, n: nat) {
    forall a :: to'(a) == if dst <= a < dst + n then from(src + (a - dst)) else to(a)
  }

  // ----- The driver -----

  class BlockDriver {
    const blockData: array<nat>   // the page of BlockData: global_count, then the slots
    const desc: array<Desc>       // the page of descriptors
    const ring: array<nat>        // the words of the available ring behind flags and idx
    const usedLens: array<nat>    // the length fields of the used ring's elements
    var availFlags: nat
    var availIdx: nat
    var usedIdx: nat
    var headers: map<int, Header> // request headers by physical address
    var lastAvail: nat            // the device's position in the available ring
    var served: seq<Served>       // what the device was asked to do so far
    var world: World              // what it does it to

    ghost predicate Shape()
      reads this
    {
      && blockData.Length == 4096 && desc.Length == 256 && ring.Length == 2046 && usedLens.Length == 511
      && blockData != ring && usedLens != blockData && usedLens != ring
      && availIdx < U16 && usedIdx < U16 && lastAvail < U16
    }

    ghost function Slots(): seq<nat>
      requires Shape()
      reads this, blockData
    {
      blockData[1..1 + SLOTS]
    }

    /** Between two calls of a sequential caller: no request is pending, every slot is free,
        and every ring entry is 0. */
    ghost predicate Idle()
      reads this, blockData, ring
    {
      && Shape() && AllFree(Slots()) && lastAvail == availIdx
      && forall i :: 0 <= i < QUEUE_SIZE ==> ring[i] == 0
    }

    constructor (blockData: array<nat>, desc: array<Desc>, ring: array<nat>, usedLens: array<nat>, world: World)
      requires blockData.Length == 4096 && desc.Length == 256 && ring.Length == 2046 && usedLens.Length == 511
      requires blockData != ring && usedLens != blockData && usedLens != ring
      requires forall i :: 0 <= i < blockData.Length ==> blockData[i] == 0
      requires forall i :: 0 <= i < ring.Length ==> ring[i] == 0
      ensures this.blockData == blockData && this.desc == desc && this.ring == ring
      ensures this.usedLens == usedLens && this.world == world
      ensures Idle() && served == []
    {
      this.blockData, this.desc, this.ring, this.usedLens := blockData, desc, ring, usedLens;
      availFlags, availIdx, usedIdx, lastAvail := 0, 0, 0, 0;
      headers, served, this.world := map[], [], world;
    }

    method FindFreeIndex() returns (result: int)
      requires Shape()
      modifies blockData
      ensures Slots() == Claim(old(Slots())) && result == Head(old(Slots()))
      ensures blockData[0] == if result >= 0 then (old(blockData[0]) + 1) % 256 else old(blockData[0])
      ensures forall i :: 1 + SLOTS <= i < blockData.Length ==> blockData[i] == old(blockData[i])
    {
      result := -1;
      ghost var was := Slots();
      var i := 0;
      while i < 12
        invariant 0 <= i <= 12 && blockData[..] == old(blockData[..])
        invariant forall j :: 0 <= j < i ==> was[j] != 0
      {
        assert was[i] == blockData[1 + i];
        if blockData[1 + i] == 0 {
          blockData[0] := (blockData[0] + 1) % 256;
          blockData[1 + i] := 1;
          assert FirstFree(was) == i;
          assert Slots() == was[i := 1];
          return i * 3;
        }
        i := i + 1;
      }
    }

    /** The retry loop: it ends because a slot is free. */
    method ClaimSlot() returns (h: nat)
      requires Shape() && FirstFree(Slots()) >= 0
      modifies blockData
      ensures Slots() == Claim(old(Slots())) && h == Head(old(Slots()))
      ensures blockData[0] == (old(blockData[0]) + 1) % 256
      ensures forall i :: 1 + SLOTS <= i < blockData.Length ==> blockData[i] == old(blockData[i])
    {
      var freeIndex := -1;
      ghost var was := Slots();
      while freeIndex == -1
        invariant freeIndex == -1 ==> blockData[..] == old(blockData[..])
        invariant freeIndex != -1 ==> freeIndex == Head(was) && Slots() == Claim(was)
        invariant freeIndex != -1 ==> blockData[0] == (old(blockData[0]) + 1) % 256
        invariant forall i :: 1 + SLOTS <= i < blockData.Length ==> blockData[i] == old(blockData[i])
        decreases if freeIndex == -1 then 1 else 0
      {
        assert Slots() == was;
        freeIndex := FindFreeIndex();
      }
      h := freeIndex;
    }

    method BuildChain(h: nat, req: nat, data: nat, len: nat, dataFlags: nat, status: nat)
      requires Shape() && h + 2 < desc.Length
      modifies desc
      ensures desc[h] == Desc(KernalToUserSpace(req), 16, VIRTIO_DESC_F_NEXT, (h + 1) % U16)
      ensures desc[h + 1] == Desc(KernalToUserSpace(data), len, dataFlags, (h + 2) % U16)
      ensures desc[h + 2] == Desc(KernalToUserSpace(status), 1, VIRTIO_DESC_F_WRITE, old(desc[h + 2].next))
      ensures Chained(desc[..], h, req, data, len, dataFlags, status)
      ensures forall i :: 0 <= i < desc.Length && !(h <= i <= h + 2) ==> desc[i] == old(desc[i])
    {
      var i := h;
      desc[i] := Desc(KernalToUserSpace(req), 16, VIRTIO_DESC_F_NEXT, (h + 1) % U16);
      i := i + 1;
      desc[i] := Desc(KernalToUserSpace(data), len, dataFlags, (h + 2) % U16);
      i := i + 1;
      desc[i] := Desc(KernalToUserSpace(status), 1, VIRTIO_DESC_F_WRITE, desc[i].next);
    }

    /** The head goes to the ring at its own index, not at idx mod 12. */
    method Publish(h: nat) returns (lastSeen: nat)
      requires Shape() && h < ring.Length
      modifies ring, `availFlags, `availIdx
      ensures availFlags == 1 && availIdx == (old(availIdx) + 1) % U16
      ensures ring[..] == old(ring[..])[h := h % U16]
      ensures lastSeen == usedIdx
    {
      availFlags := 1;
      ring[h] := h % U16;
      availIdx := (availIdx + 1) % U16;
      lastSeen := usedIdx;
    }

    /** The device takes the next available entry, if there is one, and reports how many bytes
        it has written in the next element of the used ring. */
    method DeviceStep(written: nat)
      requires Shape()
      modifies `lastAvail, `usedIdx, `served, `world, usedLens
      ensures Shape()
      ensures old(lastAvail) == availIdx ==>
                && lastAvail == old(lastAvail) && usedIdx == old(usedIdx) && served == old(served)
                && world == old(world) && usedLens[..] == old(usedLens[..])
      ensures old(lastAvail) != availIdx ==>
                && lastAvail == (old(lastAvail) + 1) % U16 && usedIdx == (old(usedIdx) + 1) % U16
                && served == old(served) + [Serve(desc[..], headers, ring[old(lastAvail) % QUEUE_SIZE])]
                && world == Execute(served[|old(served)|], old(world))
                && usedLens[..] == old(usedLens[..])[old(usedIdx) % QUEUE_SIZE := written]
    {
      if lastAvail != availIdx {
        var head := ring[lastAvail % QUEUE_SIZE];
        var answer := Serve(desc[..], headers, head);
        served := served + [answer];
        world := Execute(answer, world);
        usedLens[usedIdx % QUEUE_SIZE] := written;
        lastAvail := (lastAvail + 1) % U16;
        usedIdx := (usedIdx + 1) % U16;
      }
    }

    /** Polls the used index. The device was notified; it answers after any number of polls. */
    method WaitForDevice(lastSeen: nat, delay: nat, written: nat)
      requires Shape() && lastSeen == usedIdx && availIdx == (lastAvail + 1) % U16
      modifies `lastAvail, `usedIdx, `served, `world, usedLens
      ensures Shape() && lastAvail == availIdx && usedIdx == (lastSeen + 1) % U16
      ensures served == old(served) + [Serve(desc[..], headers, ring[old(lastAvail) % QUEUE_SIZE])]
      ensures world == Execute(served[|old(served)|], old(world))
      ensures usedLens[..] == old(usedLens[..])[lastSeen % QUEUE_SIZE := written]
    {
      var left := delay;
      while usedIdx == lastSeen
        invariant Shape() && left >= 0
        invariant usedIdx == lastSeen ==>
                    && lastAvail == old(lastAvail) && served == old(served) && world == old(world)
                    && usedLens[..] == old(usedLens[..])
        invariant usedIdx != lastSeen ==>
                    && lastAvail == availIdx && usedIdx == (lastSeen + 1) % U16
                    && served == old(served) + [Serve(desc[..], headers, ring[old(lastAvail) % QUEUE_SIZE])]
                    && world == Execute(served[|old(served)|], old(world))
                    && usedLens[..] == old(usedLens[..])[lastSeen % QUEUE_SIZE := written]
        decreases if usedIdx == lastSeen then left + 1 else 0
      {
        if left > 0 {
          left := left - 1;
        } else {
          DeviceStep(written);
        }
      }
    }

    /** Chain, publish, wait, release. The release clears the byte numbered like the head, and
        the length returned is that of the used element numbered like the head. */
    method Transfer(h: nat, req: nat, data: nat, len: nat, dataFlags: nat, status: nat, delay: nat, written: nat,
                    ghost heap: Allocator)
      returns (returned: nat)
      requires heap.Valid() && Apart(heap)
      requires Shape() && lastAvail == availIdx && h + 2 < 255 && (dataFlags == 1 || dataFlags == 3)
      modifies this, blockData, desc, ring, usedLens
      ensures heap.Valid() && heap.Abstract() == old(heap.Abstract())
      ensures Shape() && lastAvail == availIdx && Advanced(old(availIdx), old(usedIdx))
      ensures headers == old(headers) && blockData[..] == old(blockData[..])[1 + h := 0]
      ensures ring[..] == old(ring[..])[h := h]
      ensures usedLens[..] == old(usedLens[..])[old(usedIdx) % QUEUE_SIZE := written]
      ensures returned == LengthAt(old(usedLens[..]), h, old(usedIdx), written)
      ensures forall i :: 0 <= i < desc.Length && !(h <= i <= h + 2) ==> desc[i] == old(desc[i])
      ensures |served| == |old(served)| + 1 && served[..|old(served)|] == old(served)
      ensures world == Execute(served[|old(served)|], old(world))
      ensures Chained(desc[..], h, req, data, len, dataFlags, status)
      ensures Meets(old(ring[..]), h, old(availIdx)) ==>
                var header := HeaderAt(headers, KernalToUserSpace(req));
                served[|old(served)|] == OwnRequest(h, header, data, len, dataFlags, status)
      ensures !Meets(old(ring[..]), h, old(availIdx)) ==>
                && served[|old(served)|] == Serve(desc[..], headers, EntryRead(old(ring[..]), h, old(availIdx)))
                && !IsRequestOf(served[|old(served)|], h)
    {
      SendAndWait(h, req, data, len, dataFlags, status, delay, written);
      ghost var published, lens, chain := ring[..], usedLens[..], desc[..];
      returned := usedLens[h];
      blockData[1 + h] := 0;
      assert ring[..] == published && usedLens[..] == lens && desc[..] == chain;
    }

    /** Chain, publish, wait. */
    method SendAndWait(h: nat, req: nat, data: nat, len: nat, dataFlags: nat, status: nat, delay: nat, written: nat)
      requires Shape() && lastAvail == availIdx && h + 2 < 255 && (dataFlags == 1 || dataFlags == 3)
      modifies `availFlags, `availIdx, `usedIdx, `lastAvail, `served, `world, desc, ring, usedLens
      ensures Shape() && lastAvail == availIdx && Advanced(old(availIdx), old(usedIdx))
      ensures ring[..] == old(ring[..])[h := h]
      ensures usedLens[..] == old(usedLens[..])[old(usedIdx) % QUEUE_SIZE := written]
      ensures forall i :: 0 <= i < desc.Length && !(h <= i <= h + 2) ==> desc[i] == old(desc[i])
      ensures |served| == |old(served)| + 1 && served[..|old(served)|] == old(served)
      ensures world == Execute(served[|old(served)|], old(world))
      ensures Chained(desc[..], h, req, data, len, dataFlags, status)
      ensures served[|old(served)|] == Serve(desc[..], headers, EntryRead(old(ring[..]), h, old(availIdx)))
      ensures Meets(old(ring[..]), h, old(availIdx)) ==>
                var header := HeaderAt(headers, KernalToUserSpace(req));
                served[|old(served)|] == OwnRequest(h, header, data, len, dataFlags, status)
      ensures !Meets(old(ring[..]), h, old(availIdx)) ==> !IsRequestOf(served[|old(served)|], h)
    {
      BuildChain(h, req, data, len, dataFlags, status);
      PublishedHeadIsRead(ring[..], h, availIdx);
      var lastSeen := Publish(h);
      OwnIsServed(desc[..], headers, h, ring[lastAvail % QUEUE_SIZE], req, data, len, dataFlags, status);
      assert ring[..] == old(ring[..])[h := h];
      WaitForDevice(lastSeen, delay, written);
    }

    ghost predicate Advanced(avail: nat, used: nat)
      reads this
    {
      availIdx == (avail + 1) % U16 && usedIdx == (used + 1) % U16 && availFlags == 1
    }

    /** n requests after the indices were `avail` and `used`. */
    ghost predicate Counts(avail: nat, used: nat, n: nat)
      reads this
    {
      availIdx == (avail + n) % U16 && usedIdx == (used + n) % U16
    }

    /** The heap's bitmap is none of the driver's arrays. */
    ghost predicate Apart(heap: Allocator)
      reads heap.pages
    {
      var buffer: object := heap.pages.buffer;
      buffer != blockData && buffer != desc && buffer != ring && buffer != usedLens
    }

    /** The common part of both requests, from any state in which no request is pending and a
        slot is free, whatever earlier requests have left in the slot table and the ring. The
        header is stored where the current tables take its address; an address that faults
        never lets the request go on. The device serves this very request if and only if its
        head is the one it reads and this header stands where the descriptor points. */
    method Submit(heap: Allocator, kind: nat, sector: nat, data: nat, len: nat, dataFlags: nat,
                  delay: nat, written: nat)
      returns (out: Outcome)
      requires Shape() && FirstFree(Slots()) >= 0 && lastAvail == availIdx && (dataFlags == 1 || dataFlags == 3)
      requires heap.Valid() && Apart(heap)
      modifies this, blockData, desc, ring, usedLens
      modifies heap, heap.pages.buffer, heap.mapper, heap.mapper.mmu`mem, heap.mapper.mmu`tablesReady
      ensures heap.Valid() && Took(heap, old(heap.Abstract()), out)
      ensures out.Hung? ==>
                && Shape() && served == old(served) && headers == old(headers) && world == old(world)
                && availIdx == old(availIdx) && usedIdx == old(usedIdx) && lastAvail == old(lastAvail)
                && blockData[..] == old(blockData[..]) && desc[..] == old(desc[..])
                && ring[..] == old(ring[..]) && usedLens[..] == old(usedLens[..])
      ensures out.Done? ==>
                && Shape() && lastAvail == availIdx && Advanced(old(availIdx), old(usedIdx))
                && headers == old(headers)[out.target := Header(kind, 0, sector)]
                && Slots() == Released(old(Slots())) && blockData[0] == (old(blockData[0]) + 1) % 256
                && ring[..] == old(ring[..])[Head(old(Slots())) := Head(old(Slots()))]
                && usedLens[..] == old(usedLens[..])[old(usedIdx) % QUEUE_SIZE := written]
                && out.returned == LengthAt(old(usedLens[..]), Head(old(Slots())), old(usedIdx), written)
      ensures out.Done? ==> var h := Head(old(Slots()));
                forall i :: 0 <= i < desc.Length && !(h <= i <= h + 2) ==> desc[i] == old(desc[i])
      ensures out.Done? ==>
                && |served| == |old(served)| + 1 && served[..|old(served)|] == old(served)
                && world == Execute(served[|old(served)|], old(world))
                && Chained(desc[..], Head(old(Slots())), out.req, data, len, dataFlags, out.status)
      ensures out.Done? ==> var h := Head(old(Slots()));
                served[|old(served)|] == OwnRequest(h, Header(kind, 0, sector), data, len, dataFlags, out.status)
                <==> Meets(old(ring[..]), h, old(availIdx)) && Stands(headers, out.req, kind, sector)
      ensures out.Done? && !Meets(old(ring[..]), Head(old(Slots())), old(availIdx)) ==>
                served[|old(served)|] ==
                Serve(desc[..], headers, EntryRead(old(ring[..]), Head(old(Slots())), old(availIdx)))
    {
      ghost var slots := Slots();
      var stored, h, target, req, status := PrepareRequest(heap, kind, sector);
      if !stored { return Hung; }
      ghost var claimed := blockData[..];
      var returned := Transfer(h, req, data, len, dataFlags, status, delay, written, heap);
      ReleasedPage(claimed, slots, h);
      out := Done(returned, req, status, target);
    }

    /** Header, slot and status byte, in that order. */
    method PrepareRequest(heap: Allocator, kind: nat, sector: nat)
      returns (stored: bool, h: nat, target: int, req: nat, status: nat)
      requires Shape() && FirstFree(Slots()) >= 0 && heap.Valid() && Apart(heap)
      modifies `headers, blockData
      modifies heap, heap.pages.buffer, heap.mapper, heap.mapper.mmu`mem, heap.mapper.mmu`tablesReady
      ensures heap.Valid()
      ensures Took(heap, old(heap.Abstract()), if stored then Done(0, req, status, target) else Hung)
      ensures desc[..] == old(desc[..]) && ring[..] == old(ring[..]) && usedLens[..] == old(usedLens[..])
      ensures !stored ==> headers == old(headers) && blockData[..] == old(blockData[..])
      ensures stored ==>
                && headers == old(headers)[target := Header(kind, 0, sector)]
                && Slots() == Claim(old(Slots())) && h == Head(old(Slots()))
                && blockData[0] == (old(blockData[0]) + 1) % 256
    {
      ghost var page := blockData[..];
      stored, target, req := StoreHeader(heap, Header(kind, 0, sector));
      assert blockData[..] == page;
      if !stored { return false, 0, 0, 0, 0; }
      h := ClaimSlot();
      ghost var claimed := blockData[..];
      status := heap.Kmalloc(1);
      assert blockData[..] == claimed;
    }

    /** The header's page, and the store through the kernel's tables as they are then. */
    method StoreHeader(heap: Allocator, header: Header) returns (stored: bool, target: int, req: nat)
      requires heap.Valid() && Apart(heap)
      modifies `headers
      modifies heap, heap.pages.buffer, heap.mapper, heap.mapper.mmu`mem, heap.mapper.mmu`tablesReady
      ensures heap.Valid() && heap.Abstract() == Allocated(old(heap.Abstract()), 1)
      ensures headers == if stored then old(headers)[target := header] else old(headers)
      ensures old(heap.used) + 1 <= SCANNED_PAGES ==>
                && req == HIGH + PagePa(old(heap.used))
                && FreshTarget(old(heap.Abstract())) == if stored then To(target, true) else Fault
    {
      ghost var before := heap.Abstract();
      req := heap.Kmalloc(SIZEOF_BLK_REQ);
      if before.used + 1 <= SCANNED_PAGES {
        FreshStore(heap, before);
      }
      var t := Translate(heap.mapper.mmu.mem, L0_BASE_PHYS, heap.mapper.mmu.ttbr1, req);
      stored := t.To?;
      target := 0;
      if stored {
        target := t.pa;
        headers := headers[target := header];
      }
    }

    /** A read from any state without a pending request. */
    method BlockRead(heap: Allocator, sector: nat, data: nat, size: nat, delay: nat, written: nat)
      returns (out: Outcome)
      requires Shape() && FirstFree(Slots()) >= 0 && lastAvail == availIdx && sector < U32
      requires heap.Valid() && Apart(heap)
      modifies this, blockData, desc, ring, usedLens
      modifies heap, heap.pages.buffer, heap.mapper, heap.mapper.mmu`mem, heap.mapper.mmu`tablesReady
      ensures Shape() && heap.Valid() && Took(heap, old(heap.Abstract()), out)
      ensures out.Hung? ==>
                && served == old(served) && headers == old(headers) && Slots() == old(Slots())
                && world == old(world)
      ensures out.Done? ==>
                && lastAvail == availIdx && Advanced(old(availIdx), old(usedIdx))
                && headers == old(headers)[out.target := Header(0, 0, sector)]
                && Slots() == Released(old(Slots()))
                && usedLens[..] == old(usedLens[..])[old(usedIdx) % QUEUE_SIZE := written]
                && out.returned == LengthAt(old(usedLens[..]), Head(old(Slots())), old(usedIdx), written)
      ensures out.Done? ==>
                && |served| == |old(served)| + 1 && served[..|old(served)|] == old(served)
                && world == Execute(served[|old(served)|], old(world))
                && Chained(desc[..], Head(old(Slots())), out.req, data, size % 0x1_0000_0000, 3, out.status)
      ensures out.Done? ==>
                (served[|old(served)|] == ReadRequest(Head(old(Slots())), sector, data, size, out.status)
                 <==> Meets(old(ring[..]), Head(old(Slots())), old(availIdx))
                      && Stands(headers, out.req, 0, sector))
      ensures out.Done? ==>
                (Meets(old(ring[..]), Head(old(Slots())), old(availIdx)) && Stands(headers, out.req, 0, sector)
                 ==> ReadBytes(old(world), world, sector, data % 0x1_0000_0000_0000, size % 0x1_0000_0000))
      ensures out.Done? && old(Idle()) ==> Idle()
    {
      IdleMeets();
      var dataFlags := VIRTIO_DESC_F_NEXT + VIRTIO_DESC_F_WRITE;
      ghost var w := world;
      out := Submit(heap, VIRTIO_BLK_T_IN, sector, data, size % U32, dataFlags, delay, written);
      ReadInNumbers(w, Head(old(Slots())), sector, data, size, if out.Done? then out.status else 0);
    }

    /** Writes one sector whatever the size asked for. */
    method BlockWrite(heap: Allocator, sector: nat, data: nat, size: nat, delay: nat, written: nat)
      returns (out: Outcome)
      requires Shape() && FirstFree(Slots()) >= 0 && lastAvail == availIdx && sector < U32
      requires heap.Valid() && Apart(heap)
      modifies this, blockData, desc, ring, usedLens
      modifies heap, heap.pages.buffer, heap.mapper, heap.mapper.mmu`mem, heap.mapper.mmu`tablesReady
      ensures Shape() && heap.Valid() && Took(heap, old(heap.Abstract()), out)
      ensures out.Hung? ==>
                && served == old(served) && headers == old(headers) && Slots() == old(Slots())
                && world == old(world)
      ensures out.Done? ==>
                && lastAvail == availIdx && Advanced(old(availIdx), old(usedIdx))
                && headers == old(headers)[out.target := Header(1, 0, sector)]
                && Slots() == Released(old(Slots()))
                && usedLens[..] == old(usedLens[..])[old(usedIdx) % QUEUE_SIZE := written]
                && out.returned == LengthAt(old(usedLens[..]), Head(old(Slots())), old(usedIdx), written)
      ensures out.Done? ==>
                && |served| == |old(served)| + 1 && served[..|old(served)|] == old(served)
                && world == Execute(served[|old(served)|], old(world))
                && Chained(desc[..], Head(old(Slots())), out.req, data, 512, 1, out.status)
      ensures out.Done? ==>
                (served[|old(served)|] == WriteRequest(Head(old(Slots())), sector, data, out.status)
                 <==> Meets(old(ring[..]), Head(old(Slots())), old(availIdx))
                      && Stands(headers, out.req, 1, sector))
      ensures out.Done? ==>
                (Meets(old(ring[..]), Head(old(Slots())), old(availIdx)) && Stands(headers, out.req, 1, sector)
                 ==> WroteSector(old(world), world, sector, data % 0x1_0000_0000_0000))
      ensures out.Done? && old(Idle()) ==> Idle()
    {
      IdleMeets();
      ghost var w := world;
      out := Submit(heap, VIRTIO_BLK_T_OUT, sector, data, 512, VIRTIO_DESC_F_NEXT, delay, written);
      WriteInNumbers(w, Head(old(Slots())), sector, data, if out.Done? then out.status else 0);
    }

    /** What a request does while it holds the lock: claim, chain, publish. */
    method ClaimAndPublish(req: nat, data: nat, len: nat, dataFlags: nat, status: nat) returns (h: nat)
      requires Shape() && FirstFree(Slots()) >= 0
      modifies `availFlags, `availIdx, blockData, desc, ring
      ensures Shape() && availIdx == (old(availIdx) + 1) % U16
      ensures Slots() == Claim(old(Slots())) && h == Head(old(Slots()))
      ensures ring[..] == old(ring[..])[h := h]
    {
      h := ClaimSlot();
      ghost var slots := Slots();
      BuildChain(h, req, data, len, dataFlags, status);
      var _ := Publish(h);
      assert Slots() == slots;
    }

    method PublishTwo(req1: nat, data1: nat, len1: nat, flags1: nat, status1: nat,
                      req2: nat, data2: nat, len2: nat, flags2: nat, status2: nat)
      returns (h1: nat, h2: nat)
      requires Idle()
      modifies `availFlags, `availIdx, blockData, desc, ring
      ensures Shape() && availIdx == (old(availIdx) + 2) % U16 && h1 == 0 && h2 == 3
      ensures Slots() == old(Slots())[0 := 1][1 := 1] && ring[..] == old(ring[..])[3 := 3]
    {
      ghost var ring0 := ring[..];
      TwoClaims(Slots());
      h1 := ClaimAndPublish(req1, data1, len1, flags1, status1);
      assert ring[..] == ring0;
      h2 := ClaimAndPublish(req2, data2, len2, flags2, status2);
    }

    method AnswerTwo(written1: nat, written2: nat)
      requires Shape() && availIdx == (lastAvail + 2) % U16
      modifies `lastAvail, `usedIdx, `served, `world, usedLens
      ensures Shape() && lastAvail == availIdx && usedIdx == (old(usedIdx) + 2) % U16
      ensures served == old(served) + [Serve(desc[..], headers, ring[old(lastAvail) % QUEUE_SIZE]),
                                       Serve(desc[..], headers, ring[(old(lastAvail) + 1) % U16 % QUEUE_SIZE])]
      ensures world == Execute(served[|old(served)| + 1], Execute(served[|old(served)|], old(world)))
    {
      ghost var was := served;
      OneLater(usedIdx, 1);
      OneLater(lastAvail, 1);
      DeviceStep(written1);
      DeviceStep(written2);
      assert served == was + [served[|was|]] + [served[|was| + 1]];
    }

    /** Two CPUs whose requests overlap: both publish before the device has answered, then
        both wait and release. The ring keeps the second head, and its slot stays taken. */
    method Overlap(req1: nat, data1: nat, len1: nat, flags1: nat, status1: nat, written1: nat,
                   req2: nat, data2: nat, len2: nat, flags2: nat, status2: nat, written2: nat)
      requires Idle()
      modifies this, blockData, desc, ring, usedLens
      ensures Shape() && lastAvail == availIdx == (old(availIdx) + 2) % U16
      ensures usedIdx == (old(usedIdx) + 2) % U16 && headers == old(headers)
      ensures ring[..] == old(ring[..])[3 := 3] && Slots() == old(Slots())[1 := 1]
      ensures served == old(served) + [Serve(desc[..], headers, ring[old(availIdx) % QUEUE_SIZE]),
                                       Serve(desc[..], headers, ring[(old(availIdx) + 1) % U16 % QUEUE_SIZE])]
      ensures world == Execute(served[|old(served)| + 1], Execute(served[|old(served)|], old(world)))
    {
      TwoClaims(Slots());
      var h1, h2 := PublishTwo(req1, data1, len1, flags1, status1, req2, data2, len2, flags2, status2);
      ghost var twice, claimed := ring[..], Slots();
      AnswerTwo(written1, written2);
      assert ring[..] == twice && Slots() == claimed;
      ReleaseTwo(h1, h2);
      assert ring[..] == twice;
    }

    method ReleaseTwo(h1: nat, h2: nat)
      requires Shape() && h1 < SLOTS && h2 < SLOTS
      modifies blockData
      ensures Slots() == old(Slots())[h1 := 0][h2 := 0]
    {
      blockData[1 + h1] := 0;
      blockData[1 + h2] := 0;
    }

    /** In the idle state the claim is slot 0 and its head is met at any available index. */
    lemma IdleMeets()
      requires Shape()
      ensures Idle() ==> FirstFree(Slots()) == 0 && Released(Slots()) == Slots() && Meets(ring[..], 0, availIdx)
      ensures Idle() ==> ring[..][0 := 0] == ring[..]
    {
      if Idle() {
        assert Slots()[0] == 0;
        ReleaseRestoresOnlySlotZero(Slots());
      }
    }
  }

  /** The three descriptors of a request, in numbers: a readable header of 16 bytes, the
      data, a writable byte. */
  ghost predicate Chained(desc: seq<Desc>, h: nat, req: nat, data: nat, len: nat, dataFlags: nat, status: nat) {
    && h + 2 < |desc|
    && desc[h] == Desc(req % 0x1_0000_0000_0000, 16, 1, (h + 1) % 0x1_0000)
    && desc[h + 1] == Desc(data % 0x1_0000_0000_0000, len, dataFlags, (h + 2) % 0x1_0000)
    && desc[h + 2] == Desc(status % 0x1_0000_0000_0000, 1, 2, desc[h + 2].next)
  }

  /** A read of n bytes: from the sector on they stand at the address, if they are whole
      sectors, and nothing else has changed. */
  ghost predicate ReadBytes(w: World, w': World, sector: nat, at: nat, n: nat) {
    && w'.disk == w.disk
    && (n % 512 == 0 ==> Moved(w.disk, 512 * sector, w.memory, w'.memory, at, n))
    && (n % 512 != 0 ==> w'.memory == w.memory)
  }

  /** A write: the sector holds the 512 bytes at the address, and nothing else has changed. */
  ghost predicate WroteSector(w: World, w': World, sector: nat, at: nat) {
    w'.memory == w.memory && Moved(w.memory, at, w.disk, w'.disk, 512 * sector, 512)
  }

  /** sizeof(struct virtio_blk_req) */
  const SIZEOF_BLK_REQ := 16

  /** How a request ends. Hung: its header's address faults, and the exception returns to the
      faulting store for ever. */
  datatype Outcome = Hung | Done(returned: nat, req: nat, status: nat, target: int)

  /** What a request took from the heap: a page for its header and one for its status byte,
      and where the header went. */
  ghost predicate Took(heap: Allocator, before: Heap, out: Outcome)
    reads heap, heap.mapper
  {
    match out
    case Hung =>
      && heap.Abstract() == Allocated(before, 1)
      && (before.used + 1 <= SCANNED_PAGES ==> FreshTarget(before) == Fault)
    case Done(_, req, status, target) =>
      && heap.Abstract() == Allocated(Allocated(before, 1), 1)
      && (before.used + 1 <= SCANNED_PAGES ==>
            req == HIGH + PagePa(before.used) && FreshTarget(before) == To(target, true))
      && (before.used + 2 <= SCANNED_PAGES ==> status == HIGH + PagePa(before.used + 1))
  }

  /** The header of such a request stands where a descriptor for `req` points. */
  predicate Stands(headers: map<int, Header>, req: nat, kind: nat, sector: nat) {
    var header := HeaderAt(headers, KernalToUserSpace(req));
    header.kind == kind && header.sector == sector
  }

  lemma FreshStore(heap: Allocator, before: Heap)
    requires heap.Valid() && before.used < SCANNED_PAGES && InScan(before.history)
    requires heap.Abstract() == Allocated(before, 1)
    ensures Translate(heap.mapper.mmu.mem, L0_BASE_PHYS, heap.mapper.mmu.ttbr1, HIGH + PagePa(before.used))
      == FreshTarget(before)
  {
    assert heap.mapper.history == before.history + [before.used];
    FreshWalk(heap.mapper.mmu.mem, heap.mapper.mmu.l2Start, before);
  }

  /** A request with page q of the heap for its header finds it in place if and only if q lies
      in a group whose number is a multiple of 8, or the same header stood there before. */
  lemma HeaderStands(headers: map<int, Header>, h: Heap, target: int, kind: nat, sector: nat)
    requires h.used < SCANNED_PAGES && FreshTarget(h) == To(target, true)
    ensures Stands(headers[target := Header(kind, 0, sector)], HIGH + PagePa(h.used), kind, sector) <==>
      (h.used / 512) % 8 == 0 || Stands(headers, HIGH + PagePa(h.used), kind, sector)
  {
    HighAlias(PagePa(h.used));
    FreshIsOwn(h);
  }

  function OwnRequest(h: nat, header: Header, data: nat, len: nat, dataFlags: nat, status: nat): Served {
    Request(h, header.kind, header.sector, KernalToUserSpace(data), len, dataFlags == 3, KernalToUserSpace(status))
  }

  function ReadRequest(h: nat, sector: nat, data: nat, size: nat, status: nat): Served {
    Request(h, VIRTIO_BLK_T_IN, sector, KernalToUserSpace(data), size % U32, true, KernalToUserSpace(status))
  }

  function WriteRequest(h: nat, sector: nat, data: nat, status: nat): Served {
    Request(h, VIRTIO_BLK_T_OUT, sector, KernalToUserSpace(data), 512, false, KernalToUserSpace(status))
  }

  /** The head h is written to ring[h], but at available index k the device reads
      ring[k mod 12]. */
  function EntryRead(ring: seq<nat>, h: nat, k: nat): nat
    requires QUEUE_SIZE <= |ring| && h < |ring|
  {
    ring[h := h % U16][k % QUEUE_SIZE]
  }

  /** When the entry that the device reads is the published head: it is written there, or it
      stood there before. */
  lemma PublishedHeadIsRead(ring: seq<nat>, h: nat, k: nat)
    requires QUEUE_SIZE <= |ring| && h < |ring| && h < U16
    ensures EntryRead(ring, h, k) == h <==> k % QUEUE_SIZE == h || ring[k % QUEUE_SIZE] == h
  {
  }

  /** When the request with head h is the one served at available index k: its triple lies
      inside the queue, and its head is the entry read. */
  predicate Meets(ring: seq<nat>, h: nat, k: nat)
    requires QUEUE_SIZE <= |ring|
  {
    h + 2 < QUEUE_SIZE && (k % QUEUE_SIZE == h || ring[k % QUEUE_SIZE] == h)
  }

  /** The length that a request with head h returns when the used index was `used`: the
      device reports `written` in element used mod 12, but the request reads element h. */
  function LengthAt(lens: seq<nat>, h: nat, used: nat, written: nat): nat
    requires QUEUE_SIZE <= |lens| && h < |lens|
  {
    lens[used % QUEUE_SIZE := written][h]
  }

  /** The returned length is this request's own if and only if the used index was at its head,
      or the element happened to hold the same number. */
  lemma OwnLengthReturned(lens: seq<nat>, h: nat, used: nat, written: nat)
    requires QUEUE_SIZE <= |lens| && h < |lens|
    ensures LengthAt(lens, h, used, written) == written <==> used % QUEUE_SIZE == h || lens[h] == written
  {
  }

  /** What a request left behind in the ring can hide a later one: with entry 3 still 3 from
      an earlier request, a request with head 0 at an index that is 3 modulo 12 is not the one
      the device reads. */
  lemma StaleEntryHidesRequest(ring: seq<nat>, k: nat)
    requires QUEUE_SIZE <= |ring| && ring[3] == 3 && k % QUEUE_SIZE == 3
    ensures EntryRead(ring, 0, k) == 3 && !Meets(ring, 0, k)
  {
  }

  lemma TwoClaims(slots: seq<nat>)
    requires AllFree(slots)
    ensures FirstFree(slots) == 0 && FirstFree(Claim(slots)) == 1
    ensures Claim(Claim(slots)) == slots[0 := 1][1 := 1]
    ensures slots[0 := 1][1 := 1][0 := 0][3 := 0] == slots[1 := 1]
  {
    assert slots[0] == 0 && Claim(slots)[1] == 0 && Claim(slots)[0] == 1;
  }

  lemma ReleasedPage(claimed: seq<nat>, slots: seq<nat>, h: nat)
    requires |claimed| == 4096 && |slots| == SLOTS && FirstFree(slots) >= 0 && h == Head(slots)
    requires claimed[1..1 + SLOTS] == Claim(slots)
    ensures claimed[1 + h := 0][1..1 + SLOTS] == Released(slots)
  {
  }

  /** The three descriptors from head h are a whole request for the device if and only if the
      triple lies inside the queue. */
  lemma ChainIsServed(desc: seq<Desc>, headers: map<int, Header>, h: nat, dataFlags: nat)
    requires h + 2 < |desc| && h + 2 < U16 && (dataFlags == 1 || dataFlags == 3)
    requires desc[h].len == 16
    requires desc[h].flags == VIRTIO_DESC_F_NEXT && desc[h].next == (h + 1) % U16
    requires desc[h + 1].flags == dataFlags && desc[h + 1].next == (h + 2) % U16
    requires desc[h + 2].len == 1 && desc[h + 2].flags == VIRTIO_DESC_F_WRITE
    ensures WalkChain(desc, h, QUEUE_SIZE) == if h + 2 < QUEUE_SIZE then Chain(desc[h..h + 3]) else Broken
    ensures h + 2 < QUEUE_SIZE ==> ReadableFirst(desc[h..h + 3])
    ensures Serve(desc, headers, h) ==
      if h + 2 < QUEUE_SIZE
      then
        var header := HeaderAt(headers, desc[h].addr);
        Request(h, header.kind, header.sector, desc[h + 1].addr, desc[h + 1].len, dataFlags == 3, desc[h + 2].addr)
      else Rejected
  {
    ChainIsWalked(desc, h, h + 1, h + 2);
    if h + 2 < QUEUE_SIZE {
      assert desc[h..h + 3] == [desc[h], desc[h + 1], desc[h + 2]];
    }
  }

  lemma ChainIsWalked(desc: seq<Desc>, h: nat, m: nat, t: nat)
    requires h < m < t < |desc| && HasNext(desc[h]) && HasNext(desc[m]) && !HasNext(desc[t])
    requires desc[h].next == m && desc[m].next == t
    ensures WalkChain(desc, h, QUEUE_SIZE) == if t < QUEUE_SIZE then Chain([desc[h], desc[m], desc[t]]) else Broken
  {
    var last, middle := WalkChain(desc, t, 10), WalkChain(desc, m, 11);
    assert last == if t < QUEUE_SIZE then Chain([desc[t]]) else Broken;
    assert middle == if t < QUEUE_SIZE then Chain([desc[m]] + [desc[t]]) else Broken;
    assert WalkChain(desc, h, 12) == if t < QUEUE_SIZE then Chain([desc[h]] + ([desc[m]] + [desc[t]])) else Broken;
  }

  /** The device's answer to the entry q: for the head of the chain just built, the request
      with the header that stands at its address, if the triple lies inside the queue; no
      request with that head otherwise. */
  lemma OwnIsServed(desc: seq<Desc>, headers: map<int, Header>, h: nat, q: nat,
                    req: nat, data: nat, len: nat, dataFlags: nat, status: nat)
    requires h + 2 < |desc| && h + 2 < U16 && (dataFlags == 1 || dataFlags == 3)
    requires desc[h] == Desc(KernalToUserSpace(req), 16, VIRTIO_DESC_F_NEXT, (h + 1) % U16)
    requires desc[h + 1] == Desc(KernalToUserSpace(data), len, dataFlags, (h + 2) % U16)
    requires desc[h + 2] == Desc(KernalToUserSpace(status), 1, VIRTIO_DESC_F_WRITE, desc[h + 2].next)
    ensures q == h && h + 2 < QUEUE_SIZE ==>
      Serve(desc, headers, q) == OwnRequest(h, HeaderAt(headers, KernalToUserSpace(req)), data, len, dataFlags, status)
    ensures !(q == h && h + 2 < QUEUE_SIZE) ==> !IsRequestOf(Serve(desc, headers, q), h)
  {
    ChainIsServed(desc, headers, h, dataFlags);
  }

  lemma ReadInNumbers(w: World, h: nat, sector: nat, data: nat, size: nat, status: nat)
    ensures ReadBytes(w, Execute(ReadRequest(h, sector, data, size, status), w), sector,
                      data % 0x1_0000_0000_0000, size % 0x1_0000_0000)
  {
  }

  lemma WriteInNumbers(w: World, h: nat, sector: nat, data: nat, status: nat)
    ensures WroteSector(w, Execute(WriteRequest(h, sector, data, status), w), sector, data % 0x1_0000_0000_0000)
  {
  }

  /** What the device does with three such descriptors, in numbers: kind 0 into a writable
      buffer (flags 3) reads, kind 1 out of a readable one (flags 1) writes; a request of any
      other kind, in the wrong direction or of broken sectors moves nothing. */
  lemma ChainMovesBytes(desc: seq<Desc>, headers: map<int, Header>, h: nat, req: nat, data: nat, len: nat, flags: nat,
                        status: nat, header: Header, w: World)
    requires h + 2 < 12 && Chained(desc, h, req, data, len, flags, status) && (flags == 1 || flags == 3)
    requires header == HeaderAt(headers, req % 0x1_0000_0000_0000)
    ensures var w' := Execute(Serve(desc, headers, h), w); var at := data % 0x1_0000_0000_0000;
      && (len % 512 == 0 && header.kind == 0 && flags == 3 ==>
            w'.disk == w.disk && Moved(w.disk, 512 * header.sector, w.memory, w'.memory, at, len))
      && (len % 512 == 0 && header.kind == 1 && flags == 1 ==>
            w'.memory == w.memory && Moved(w.memory, at, w.disk, w'.disk, 512 * header.sector, len))
      && (!(len % 512 == 0 && ((header.kind == 0 && flags == 3) || (header.kind == 1 && flags == 1))) ==> w' == w)
  {
    ChainIsServed(desc, headers, h, flags);
  }

  predicate IsRequestOf(answer: Served, h: nat) { answer.Request? && answer.head == h }

  // ----- Runs of requests -----

  datatype Command =
    | ReadSector(sector: nat, data: nat, size: nat)
    | WriteSector(sector: nat, data: nat, size: nat)

  function RequestOf(c: Command, status: nat): Served {
    match c
    case ReadSector(sector, data, size) => ReadRequest(0, sector, data, size, status)
    case WriteSector(sector, data, _) => WriteRequest(0, sector, data, status)
  }

  /** The request that the n-th command of a run stands for, when the run started with `first`
      pages of the heap taken: header and status byte are a fresh page each. */
  function Expected(c: Command, first: nat, n: nat): Served {
    RequestOf(c, HIGH + PagePa(first + 2 * n + 1))
  }

  function AllExpected(commands: seq<Command>, first: nat): (all: seq<Served>)
    ensures |all| == |commands|
    ensures forall n :: 0 <= n < |commands| ==> all[n] == Expected(commands[n], first, n)
  {
    seq(|commands|, n requires 0 <= n < |commands| => Expected(commands[n], first, n))
  }

  /** What a command does, in numbers. */
  function Effect(c: Command, w: World): World {
    match c
    case ReadSector(sector, data, size) =>
      var n := size % 0x1_0000_0000;
      if n % 512 != 0 then w
      else w.(memory := Copied(w.disk, 512 * sector, w.memory, data % 0x1_0000_0000_0000, n))
    case WriteSector(sector, data, _) =>
      w.(disk := Copied(w.memory, data % 0x1_0000_0000_0000, w.disk, 512 * sector, 512))
  }

  /** It is what the device makes of the request it stands for. */
  lemma EffectOfRequest(c: Command, status: nat, w: World)
    ensures Execute(RequestOf(c, status), w) == Effect(c, w)
  {
  }

  lemma EffectOnMemory(c: Command, w: World, a: int)
    ensures !Fills(c, a) ==> Effect(c, w).memory(a) == w.memory(a)
    ensures Fills(c, a) ==>
      Effect(c, w).memory(a) == w.disk(512 * c.sector + (a - c.data % 0x1_0000_0000_0000))
  {
  }

  lemma EffectOnDisk(c: Command, w: World, sector: nat, i: nat)
    requires i < 512
    ensures !Writes(c, sector) ==> Effect(c, w).disk(512 * sector + i) == w.disk(512 * sector + i)
    ensures Writes(c, sector) ==>
      Effect(c, w).disk(512 * sector + i) == w.memory(c.data % 0x1_0000_0000_0000 + i)
  {
  }

  /** The world after the first n commands. */
  function Played(w: World, commands: seq<Command>, n: nat): World
    requires n <= |commands|
  {
    if n == 0 then w else Effect(commands[n - 1], Played(w, commands, n - 1))
  }

  predicate Writes(c: Command, sector: nat) {
    c.WriteSector? && c.sector == sector
  }

  ghost predicate NoneWrites(commands: seq<Command>, sector: nat, from: nat) {
    forall m :: from <= m < |commands| ==> !Writes(commands[m], sector)
  }

  /** Commands m to n of a run that do not write a sector leave it alone. */
  lemma {:induction false} SectorStays(w: World, commands: seq<Command>, sector: nat, i: nat, m: nat, n: nat)
    requires i < 512 && m <= n <= |commands|
    requires forall j :: m <= j < n ==> !Writes(commands[j], sector)
    ensures Played(w, commands, n).disk(512 * sector + i) == Played(w, commands, m).disk(512 * sector + i)
    decreases n
  {
    if m < n {
      SectorStays(w, commands, sector, i, m, n - 1);
      EffectOnDisk(commands[n - 1], Played(w, commands, n - 1), sector, i);
    }
  }

  /** The disk after a run: a sector that none of the commands writes is the initial one; any
      other holds what stood in the buffer of the last command that writes it, when that
      command came. */
  lemma DiskAfterRun(w: World, commands: seq<Command>, sector: nat, i: nat, k: nat)
    requires i < 512
    ensures NoneWrites(commands, sector, 0) ==>
      Played(w, commands, |commands|).disk(512 * sector + i) == w.disk(512 * sector + i)
    ensures k < |commands| && Writes(commands[k], sector) && NoneWrites(commands, sector, k + 1) ==>
      Played(w, commands, |commands|).disk(512 * sector + i)
      == Played(w, commands, k).memory(commands[k].data % 0x1_0000_0000_0000 + i)
  {
    if NoneWrites(commands, sector, 0) {
      SectorStays(w, commands, sector, i, 0, |commands|);
    } else if k < |commands| && Writes(commands[k], sector) && NoneWrites(commands, sector, k + 1) {
      var l := k + 1;
      SectorStays(w, commands, sector, i, l, |commands|);
      EffectOnDisk(commands[k], Played(w, commands, k), sector, i);
      assert Played(w, commands, l) == Effect(commands[k], Played(w, commands, k));
    }
  }

  /** A command reads a byte of memory from the disk. */
  predicate Fills(c: Command, a: int) {
    c.ReadSector? && c.size % 0x1_0000_0000 % 512 == 0
    && c.data % 0x1_0000_0000_0000 <= a < c.data % 0x1_0000_0000_0000 + c.size % 0x1_0000_0000
  }

  ghost predicate NoneFills(commands: seq<Command>, a: int, from: nat) {
    forall m :: from <= m < |commands| ==> !Fills(commands[m], a)
  }

  lemma {:induction false} ByteStays(w: World, commands: seq<Command>, a: int, m: nat, n: nat)
    requires m <= n <= |commands|
    requires forall j :: m <= j < n ==> !Fills(commands[j], a)
    ensures Played(w, commands, n).memory(a) == Played(w, commands, m).memory(a)
    decreases n
  {
    if m < n {
      ByteStays(w, commands, a, m, n - 1);
      EffectOnMemory(commands[n - 1], Played(w, commands, n - 1), a);
    }
  }

  /** And memory: a byte that no command fills is the initial one; any other is the byte that
      the last command filling it found on the disk. */
  lemma MemoryAfterRun(w: World, commands: seq<Command>, a: int, k: nat)
    ensures NoneFills(commands, a, 0) ==> Played(w, commands, |commands|).memory(a) == w.memory(a)
    ensures k < |commands| && Fills(commands[k], a) && NoneFills(commands, a, k + 1) ==>
      Played(w, commands, |commands|).memory(a)
      == Played(w, commands, k).disk(512 * commands[k].sector + (a - commands[k].data % 0x1_0000_0000_0000))
  {
    if NoneFills(commands, a, 0) {
      ByteStays(w, commands, a, 0, |commands|);
    }
    if k < |commands| && Fills(commands[k], a) && NoneFills(commands, a, k + 1) {
      ByteComes(w, commands, a, k, k + 1, |commands|);
    }
  }

  lemma ByteComes(w: World, commands: seq<Command>, a: int, k: nat, l: nat, n: nat)
    requires l == k + 1 <= n == |commands| && Fills(commands[k], a) && NoneFills(commands, a, l)
    ensures Played(w, commands, n).memory(a)
      == Played(w, commands, k).disk(512 * commands[k].sector + (a - commands[k].data % 0x1_0000_0000_0000))
  {
    ByteStays(w, commands, a, l, n);
    assert Played(w, commands, l) == Effect(commands[k], Played(w, commands, k));
    EffectOnMemory(commands[k], Played(w, commands, k), a);
  }

  function AfterRequests(h: Heap, n: nat): Heap {
    if n == 0 then h else Allocated(Allocated(AfterRequests(h, n - 1), 1), 1)
  }

  lemma {:induction false} UsedAfterRequests(h: Heap, n: nat)
    requires h.used + 2 * n <= SCANNED_PAGES
    ensures AfterRequests(h, n).used == h.used + 2 * n
    decreases n
  {
    if n > 0 {
      UsedAfterRequests(h, n - 1);
    }
  }

  /** The driver between two requests, and the heap its requests take pages from. */
  ghost predicate Together(driver: BlockDriver, heap: Allocator)
    reads driver, driver.blockData, driver.ring
    reads heap, heap.pages, heap.pages.buffer, heap.mapper, heap.mapper.mmu
  {
    driver.Idle() && heap.Valid() && driver.Apart(heap)
  }

  /** The first used element after n requests that started at used index `used`: what the
      device reported for the last of them whose index was a multiple of 12. */
  function FirstLength(before: nat, used: nat, written: seq<nat>, n: nat): nat
    requires n <= |written|
  {
    if n == 0 then before
    else if (used + (n - 1)) % U16 % QUEUE_SIZE == 0 then written[n - 1]
    else FirstLength(before, used, written, n - 1)
  }

  /** Each of n requests has its header in a group whose number is a multiple of 8: so it is
      as long as the requests take none but the first 512 pages. */
  predicate GoodPages(first: nat, n: nat) {
    forall m :: 0 <= m < n ==> ((first + 2 * m) / 512) % 8 == 0
  }

  lemma EarlyPagesAreGood(first: nat, n: nat)
    requires first + 2 * n <= 512
    ensures GoodPages(first, n)
  {
  }

  /** A sequential caller: whatever it asks for, in whatever order, the device has served
      exactly its requests, in order, however often the 16-bit indices wrapped. The length
      each of them returns is that of the last request at a used index divisible by 12. */
  method ServeAll(driver: BlockDriver, heap: Allocator, commands: seq<Command>, delay: nat, written: seq<nat>)
    returns (returned: seq<nat>)
    requires Together(driver, heap) && |written| == |commands|
    requires heap.used + 2 * |commands| <= SCANNED_PAGES && GoodPages(heap.used, |commands|)
    requires forall n :: 0 <= n < |commands| ==> commands[n].sector < U32
    modifies driver, driver.blockData, driver.desc, driver.ring, driver.usedLens
    modifies heap, heap.pages.buffer, heap.mapper, heap.mapper.mmu`mem, heap.mapper.mmu`tablesReady
    ensures driver.Idle() && heap.Valid()
    ensures driver.served == old(driver.served) + AllExpected(commands, old(heap.used))
    ensures driver.world == Played(old(driver.world), commands, |commands|)
    ensures driver.Counts(old(driver.availIdx), old(driver.usedIdx), |commands|)
    ensures heap.Abstract() == AfterRequests(old(heap.Abstract()), |commands|)
    ensures |returned| == |commands|
    ensures forall n :: 0 <= n < |commands| ==>
              returned[n] == FirstLength(old(driver.usedLens[0]), old(driver.usedIdx), written, n + 1)
  {
    ghost var start := Start(heap.Abstract(), driver.served, driver.world,
                             driver.availIdx, driver.usedIdx, driver.usedLens[0]);
    returned := [];
    var n := 0;
    while n < |commands|
      invariant 0 <= n <= |commands| && |returned| == n
      invariant SoFar(driver, heap, start, commands, written, n)
      invariant forall m :: 0 <= m < n ==> returned[m] == FirstLength(start.length, start.usedIdx, written, m + 1)
    {
      var length := ServeNext(driver, heap, commands, delay, written, start, n);
      returned := returned + [length];
      n := n + 1;
    }
    assert AllExpected(commands, start.heap.used)[..n] == AllExpected(commands, start.heap.used);
  }

  /** What a run starts from. */
  datatype Start = Start(heap: Heap, served: seq<Served>, world: World, availIdx: nat, usedIdx: nat, length: nat)

  /** The first n commands of a run have been served. */
  ghost predicate SoFar(driver: BlockDriver, heap: Allocator, start: Start,
                        commands: seq<Command>, written: seq<nat>, n: nat)
    requires n <= |commands| == |written|
    reads driver, driver.blockData, driver.ring, driver.usedLens
    reads heap, heap.pages, heap.pages.buffer, heap.mapper, heap.mapper.mmu
  {
    && Together(driver, heap)
    && heap.Abstract() == AfterRequests(start.heap, n)
    && driver.served == start.served + AllExpected(commands, start.heap.used)[..n]
    && driver.world == Played(start.world, commands, n)
    && driver.Counts(start.availIdx, start.usedIdx, n)
    && driver.usedLens[0] == FirstLength(start.length, start.usedIdx, written, n)
  }

  lemma OneMoreServed(was: seq<Served>, all: seq<Served>, n: nat)
    requires n < |all|
    ensures was + all[..n] + [all[n]] == was + all[..n + 1]
  {
  }

  /** The n-th command of a run. */
  method ServeNext(driver: BlockDriver, heap: Allocator, commands: seq<Command>, delay: nat, written: seq<nat>,
                   ghost start: Start, n: nat)
    returns (returned: nat)
    requires n < |commands| == |written| && commands[n].sector < U32
    requires start.heap.used + 2 * |commands| <= SCANNED_PAGES && GoodPages(start.heap.used, |commands|)
    requires SoFar(driver, heap, start, commands, written, n)
    modifies driver, driver.blockData, driver.desc, driver.ring, driver.usedLens
    modifies heap, heap.pages.buffer, heap.mapper, heap.mapper.mmu`mem, heap.mapper.mmu`tablesReady
    ensures SoFar(driver, heap, start, commands, written, n + 1)
    ensures returned == FirstLength(start.length, start.usedIdx, written, n + 1)
  {
    ghost var avail, used, lens := driver.availIdx, driver.usedIdx, driver.usedLens[..];
    UsedAfterRequests(start.heap, n);
    var status;
    returned, status := RunOne(driver, heap, commands[n], delay, written[n]);
    NextOfRun(start, commands, written, n, status, lens, avail, used);
  }

  lemma NextOfRun(start: Start, commands: seq<Command>, written: seq<nat>, n: nat,
                  status: nat, lens: seq<nat>, avail: nat, used: nat)
    requires n < |commands| == |written| && QUEUE_SIZE <= |lens|
    requires avail == (start.availIdx + n) % U16 && used == (start.usedIdx + n) % U16
    requires status == HIGH + PagePa(start.heap.used + 2 * n + 1)
    requires lens[0] == FirstLength(start.length, start.usedIdx, written, n)
    ensures (avail + 1) % U16 == (start.availIdx + (n + 1)) % U16
    ensures (used + 1) % U16 == (start.usedIdx + (n + 1)) % U16
    ensures var all := AllExpected(commands, start.heap.used);
      start.served + all[..n] + [RequestOf(commands[n], status)] == start.served + all[..n + 1]
    ensures LengthAt(lens, 0, used, written[n]) == FirstLength(start.length, start.usedIdx, written, n + 1)
  {
    var all := AllExpected(commands, start.heap.used);
    OneLater(start.availIdx, n);
    OneLater(start.usedIdx, n);
    assert all[n] == RequestOf(commands[n], status);
    OneMoreServed(start.served, all, n);
  }

  method RunOne(driver: BlockDriver, heap: Allocator, c: Command, delay: nat, written: nat)
    returns (returned: nat, status: nat)
    requires Together(driver, heap) && c.sector < U32
    requires heap.used + 2 <= SCANNED_PAGES && (heap.used / 512) % 8 == 0
    modifies driver, driver.blockData, driver.desc, driver.ring, driver.usedLens
    modifies heap, heap.pages.buffer, heap.mapper, heap.mapper.mmu`mem, heap.mapper.mmu`tablesReady
    ensures Together(driver, heap) && driver.Advanced(old(driver.availIdx), old(driver.usedIdx))
    ensures heap.Abstract() == Allocated(Allocated(old(heap.Abstract()), 1), 1)
    ensures status == HIGH + PagePa(old(heap.used) + 1)
    ensures driver.served == old(driver.served) + [RequestOf(c, status)]
    ensures driver.world == Effect(c, old(driver.world))
    ensures returned == driver.usedLens[0] == LengthAt(old(driver.usedLens[..]), 0, old(driver.usedIdx), written)
  {
    var out;
    ghost var w := driver.world;
    if c.ReadSector? {
      out := GoodRead(driver, heap, c, delay, written);
    } else {
      out := GoodWrite(driver, heap, c, delay, written);
    }
    returned, status := out.returned, out.status;
    EffectOfRequest(c, status, w);
  }

  /** A sector that is written and then read into another buffer: the bytes that stood in the
      first buffer stand in the second, and nothing else has changed in memory or elsewhere
      on the disk. */
  method WriteThenRead(driver: BlockDriver, heap: Allocator, sector: nat, from: nat, to: nat,
                       delay: nat, written1: nat, written2: nat)
    requires Together(driver, heap) && sector < U32
    requires heap.used + 4 <= SCANNED_PAGES && GoodPages(heap.used, 2)
    modifies driver, driver.blockData, driver.desc, driver.ring, driver.usedLens
    modifies heap, heap.pages.buffer, heap.mapper, heap.mapper.mmu`mem, heap.mapper.mmu`tablesReady
    ensures Together(driver, heap)
    ensures Moved(old(driver.world).memory, from % 0x1_0000_0000_0000,
                  old(driver.world).memory, driver.world.memory, to % 0x1_0000_0000_0000, 512)
    ensures Moved(old(driver.world).memory, from % 0x1_0000_0000_0000,
                  old(driver.world).disk, driver.world.disk, 512 * sector, 512)
  {
    assert ((heap.used + 2 * 0) / 512) % 8 == 0 && ((heap.used + 2 * 1) / 512) % 8 == 0;
    ghost var w := driver.world;
    var _, _ := RunOne(driver, heap, WriteSector(sector, from, 512), delay, written1);
    var _, _ := RunOne(driver, heap, ReadSector(sector, to, 512), delay, written2);
    WrittenThenRead(w, driver.world, sector, from, to);
  }

  lemma WrittenThenRead(w: World, w': World, sector: nat, from: nat, to: nat)
    requires w' == Effect(ReadSector(sector, to, 512), Effect(WriteSector(sector, from, 512), w))
    ensures Moved(w.memory, from % 0x1_0000_0000_0000, w.memory, w'.memory, to % 0x1_0000_0000_0000, 512)
    ensures Moved(w.memory, from % 0x1_0000_0000_0000, w.disk, w'.disk, 512 * sector, 512)
  {
    var src, dst, at := from % 0x1_0000_0000_0000, to % 0x1_0000_0000_0000, 512 * sector;
    TwoCopies(w, w', sector, from, to, src, dst, at);
    CopiedBack(w.memory, src, w.disk, at, w'.disk, dst);
  }

  lemma TwoCopies(w: World, w': World, sector: nat, from: nat, to: nat, src: int, dst: int, at: int)
    requires w' == Effect(ReadSector(sector, to, 512), Effect(WriteSector(sector, from, 512), w))
    requires src == from % 0x1_0000_0000_0000 && dst == to % 0x1_0000_0000_0000 && at == 512 * sector
    ensures w'.disk == Copied(w.memory, src, w.disk, at, 512)
    ensures w'.memory == Copied(w'.disk, at, w.memory, dst, 512)
  {
  }

  lemma CopiedBack(memory: int -> int, src: int, disk: int -> int, at: int, disk': int -> int, dst: int)
    requires disk' == Copied(memory, src, disk, at, 512)
    ensures Moved(memory, src, disk, disk', at, 512)
    ensures Moved(memory, src, memory, Copied(disk', at, memory, dst, 512), dst, 512)
  {
    var memory' := Copied(disk', at, memory, dst, 512);
    forall a ensures memory'(a) == if dst <= a < dst + 512 then memory(src + (a - dst)) else memory(a) {
      CopiedByte(disk', at, memory, dst, a);
      CopiedByte(memory, src, disk, at, at + (a - dst));
    }
  }

  lemma CopiedByte(from: int -> int, src: int, to: int -> int, dst: int, a: int)
    ensures Copied(from, src, to, dst, 512)(a) == if dst <= a < dst + 512 then from(src + (a - dst)) else to(a)
  {
  }

  /** A read of a sequential caller whose header's page is a good one. */
  method GoodRead(driver: BlockDriver, heap: Allocator, c: Command, delay: nat, written: nat) returns (out: Outcome)
    requires Together(driver, heap) && c.ReadSector? && c.sector < U32
    requires heap.used + 2 <= SCANNED_PAGES && (heap.used / 512) % 8 == 0
    modifies driver, driver.blockData, driver.desc, driver.ring, driver.usedLens
    modifies heap, heap.pages.buffer, heap.mapper, heap.mapper.mmu`mem, heap.mapper.mmu`tablesReady
    ensures out.Done? && Together(driver, heap) && driver.Advanced(old(driver.availIdx), old(driver.usedIdx))
    ensures Took(heap, old(heap.Abstract()), out)
    ensures driver.served == old(driver.served) + [RequestOf(c, out.status)]
    ensures driver.world == Execute(RequestOf(c, out.status), old(driver.world))
    ensures out.returned == driver.usedLens[0] == LengthAt(old(driver.usedLens[..]), 0, old(driver.usedIdx), written)
  {
    ghost var headers, before := driver.headers, heap.Abstract();
    driver.IdleMeets();
    FreshIsOwn(before);
    out := driver.BlockRead(heap, c.sector, c.data, c.size, delay, written);
    HeaderStands(headers, before, out.target, VIRTIO_BLK_T_IN, c.sector);
  }

  method GoodWrite(driver: BlockDriver, heap: Allocator, c: Command, delay: nat, written: nat) returns (out: Outcome)
    requires Together(driver, heap) && c.WriteSector? && c.sector < U32
    requires heap.used + 2 <= SCANNED_PAGES && (heap.used / 512) % 8 == 0
    modifies driver, driver.blockData, driver.desc, driver.ring, driver.usedLens
    modifies heap, heap.pages.buffer, heap.mapper, heap.mapper.mmu`mem, heap.mapper.mmu`tablesReady
    ensures out.Done? && Together(driver, heap) && driver.Advanced(old(driver.availIdx), old(driver.usedIdx))
    ensures Took(heap, old(heap.Abstract()), out)
    ensures driver.served == old(driver.served) + [RequestOf(c, out.status)]
    ensures driver.world == Execute(RequestOf(c, out.status), old(driver.world))
    ensures out.returned == driver.usedLens[0] == LengthAt(old(driver.usedLens[..]), 0, old(driver.usedIdx), written)
  {
    ghost var headers, before := driver.headers, heap.Abstract();
    driver.IdleMeets();
    FreshIsOwn(before);
    out := driver.BlockWrite(heap, c.sector, c.data, c.size, delay, written);
    HeaderStands(headers, before, out.target, VIRTIO_BLK_T_OUT, c.sector);
  }

  /** Behind 512 pages mapped in order the header goes to page 0: the first write that takes
      page 512 is not the request that the device serves. */
  method WriteAtPage512(driver: BlockDriver, heap: Allocator, sector: nat, data: nat, size: nat,
                        delay: nat, written: nat)
    returns (out: Outcome)
    requires Together(driver, heap) && heap.Abstract() == Heap(512, From(0, 512)) && sector < U32
    requires PagePa(512) !in driver.headers
    modifies driver, driver.blockData, driver.desc, driver.ring, driver.usedLens
    modifies heap, heap.pages.buffer, heap.mapper, heap.mapper.mmu`mem, heap.mapper.mmu`tablesReady
    ensures out.Done? && out.target == PagePa(0) && KernalToUserSpace(out.req) == PagePa(512)
    ensures |driver.served| == |old(driver.served)| + 1
    ensures driver.served[|old(driver.served)|] != WriteRequest(0, sector, data, out.status)
  {
    ghost var headers, before := driver.headers, heap.Abstract();
    driver.IdleMeets();
    Page512LeadsToPage0(before);
    HighAlias(PagePa(512));
    HeaderStands(headers, before, PagePa(0), VIRTIO_BLK_T_OUT, sector);
    out := driver.BlockWrite(heap, sector, data, size, delay, written);
  }

  /** A write from a state in which entry 3 of the ring is stale, at an index that is 3
      modulo 12: it is not the request that the device serves, wherever its header went. */
  method StaleWrite(driver: BlockDriver, heap: Allocator, sector: nat, data: nat, size: nat, delay: nat, written: nat)
    returns (out: Outcome)
    requires driver.Shape() && driver.lastAvail == driver.availIdx && FirstFree(driver.Slots()) == 0
    requires driver.ring[3] == 3 && driver.availIdx % QUEUE_SIZE == 3
    requires heap.Valid() && driver.Apart(heap) && sector < U32
    modifies driver, driver.blockData, driver.desc, driver.ring, driver.usedLens
    modifies heap, heap.pages.buffer, heap.mapper, heap.mapper.mmu`mem, heap.mapper.mmu`tablesReady
    ensures driver.Shape() && driver.Slots() == old(driver.Slots())
    ensures out.Done? ==>
              && |driver.served| == |old(driver.served)| + 1
              && driver.served[|old(driver.served)|] != WriteRequest(0, sector, data, out.status)
  {
    StaleEntryHidesRequest(driver.ring[..], driver.availIdx);
    ReleaseRestoresOnlySlotZero(driver.Slots());
    out := driver.BlockWrite(heap, sector, data, size, delay, written);
  }

  /** Such a state is met: after two overlapping requests at available indices 1 and 2 modulo
      12 the next write is at 3. Slot 1 stays taken. */
  method WriteAfterOverlap(driver: BlockDriver, heap: Allocator, req: nat, data: nat, len: nat, flags: nat, status: nat,
                           sector: nat, size: nat, delay: nat, written: nat)
    returns (out: Outcome)
    requires Together(driver, heap) && sector < U32
    requires driver.availIdx % QUEUE_SIZE == 1 && driver.availIdx + 2 < U16
    modifies driver, driver.blockData, driver.desc, driver.ring, driver.usedLens
    modifies heap, heap.pages.buffer, heap.mapper, heap.mapper.mmu`mem, heap.mapper.mmu`tablesReady
    ensures driver.Shape() && driver.Slots() == old(driver.Slots())[1 := 1]
    ensures out.Done? ==>
              && |driver.served| == |old(driver.served)| + 3
              && driver.served[|old(driver.served)| + 2] != WriteRequest(0, sector, data, out.status)
  {
    LeakedSlot(driver.Slots());
    ThirdFromFirst(driver.availIdx);
    ghost var ring := driver.ring[..];
    driver.Overlap(req, data, len, flags, status, written, req, data, len, flags, status, written);
    assert driver.ring[3] == ring[3 := 3][3];
    out := StaleWrite(driver, heap, sector, data, size, delay, written);
  }

  lemma ThirdFromFirst(a: nat)
    requires a % QUEUE_SIZE == 1 && a + 2 < U16
    ensures (a + 2) % U16 % QUEUE_SIZE == 3
  {
    DivModUnique(a + 2, QUEUE_SIZE, a / QUEUE_SIZE, 3);
  }

  lemma LeakedSlot(slots: seq<nat>)
    requires AllFree(slots)
    ensures FirstFree(slots[1 := 1]) == 0
  {
    assert slots[1 := 1][0] == 0;
  }

  lemma OneLater(start: nat, n: nat)
    ensures ((start + n) % U16 + 1) % U16 == (start + (n + 1)) % U16
  {
    var q := (start + n) / U16;
    DivModUnique(start + n + 1, U16, q + ((start + n) % U16 + 1) / U16, ((start + n) % U16 + 1) % U16);
  }

  /** Behind a run of allocations, n requests are 2 * n more allocations of one page. */
  lemma {:induction false} RequestsAreAllocations(counts: seq<nat>, n: nat)
    ensures AfterRequests(Run(counts), n) == Run(counts + RequestPages(n))
    decreases n
  {
    if n == 0 {
      assert counts + RequestPages(0) == counts;
    } else {
      var all, one := counts + RequestPages(n), counts + RequestPages(n - 1) + [1];
      RequestsAreAllocations(counts, n - 1);
      assert all[..|all| - 1] == one;
      assert one[..|one| - 1] == counts + RequestPages(n - 1);
    }
  }

  /** n requests: header and status byte are a page each, and neither is given back. */
  function RequestPages(n: nat): (counts: seq<nat>)
    ensures |counts| == 2 * n && forall i :: 0 <= i < 2 * n ==> counts[i] == 1
  {
    seq(2 * n, i => 1)
  }

  lemma {:induction false} TotalOfOnes(counts: seq<nat>, ones: seq<nat>)
    requires forall i :: 0 <= i < |ones| ==> ones[i] == 1
    ensures Total(counts + ones) == Total(counts) + |ones|
    decreases |ones|
  {
    if ones == [] {
      assert counts + ones == counts;
    } else {
      var k := |ones| - 1;
      TotalOfOnes(counts, ones[..k]);
      assert (counts + ones)[..|counts| + k] == counts + ones[..k];
      FirstOfPrefix(counts + ones, |counts| + k, |counts| + k);
    }
  }

  /** After n requests, behind any run of small allocations, all of the heap is still
      reachable if and only if the two pages of each request fit the first 512. */
  lemma RequestsUseUpTheHeap(mem: Memory, l2Start: int, counts: seq<nat>, n: nat)
    requires AllMapped(counts) && Total(counts) + 2 * n <= SCANNED_PAGES
    requires Layout(l2Start) && KernelWindows(mem, l2Start)
    requires Represents(mem, l2Start, AfterRequests(Run(counts), n).history)
    ensures AllReachable(mem, AfterRequests(Run(counts), n).history) <==> Total(counts) + 2 * n <= 512
  {
    RequestsAreAllocations(counts, n);
    TotalOfOnes(counts, RequestPages(n));
    KmallocIsStable(mem, l2Start, counts + RequestPages(n));
  }
}
