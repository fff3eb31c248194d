/** The first-fit page bitmap of kernel/core/mmu.c: one bit per 4 KiB page, over the bytes
    that find_free scans. */
module PageBitmap {
  import opened Arithmetic

  /** find_free looks at bytes 0 to 16385. */
  const SCANNED_BYTES := 16386
  const SCANNED_PAGES := 8 * 16386

  datatype BitIndex = BitIndex(index: nat, bit: nat, valid: bool)

  function PageOf(b: BitIndex): nat {
    8 * b.index + b.bit
  }

  function PagesOf(res: seq<BitIndex>): (pages: seq<nat>)
    ensures |pages| == |res| && forall i :: 0 <= i < |res| ==> pages[i] == PageOf(res[i])
  {
    seq(|res|, i requires 0 <= i < |res| => PageOf(res[i]))
  }

  function IndexOf(page: nat): (b: BitIndex)
    ensures b.bit < 8 && PageOf(b) == page
  {
    BitIndex(page / 8, page % 8, true)
  }

  function Indices(pages: seq<nat>): (res: seq<BitIndex>)
    ensures |res| == |pages| && forall i :: 0 <= i < |pages| ==> res[i] == IndexOf(pages[i])
  {
    seq(|pages|, i requires 0 <= i < |pages| => IndexOf(pages[i]))
  }

  /** 1 shifted left by the bit number. */
  function Mask(bit: nat): bv8
    requires bit < 8
  {
    (1 as bv8) << bit
  }

  predicate Taken(buf: seq<bv8>, page: nat)
    requires page < 8 * |buf|
  {
    buf[page / 8] & Mask(page % 8) != 0
  }

  /** The eight pages of a byte, lowest bit first. */
  function ByteBits(b: bv8): (bits: seq<bool>)
    ensures |bits| == 8
  {
    [b & 1 != 0, b & 2 != 0, b & 4 != 0, b & 8 != 0, b & 16 != 0, b & 32 != 0, b & 64 != 0, b & 128 != 0]
  }

  function Bits(buf: seq<bv8>): (bits: seq<bool>)
    ensures |bits| == 8 * |buf|
  {
    if buf == [] then [] else Bits(buf[..|buf| - 1]) + ByteBits(buf[|buf| - 1])
  }

  lemma {:induction false} BitsAt(buf: seq<bv8>, page: nat)
    requires page < 8 * |buf|
    ensures Bits(buf)[page] == Taken(buf, page)
    decreases |buf|
  {
    var k := |buf| - 1;
    if page < 8 * k {
      BitsAt(buf[..k], page);
    } else {
      DivModUnique(page, 8, k, page - 8 * k);
      MaskValues(page - 8 * k);
    }
  }

  lemma MaskValues(bit: nat)
    requires bit < 8
    ensures Mask(bit) == [1, 2, 4, 8, 16, 32, 64, 128][bit]
  {
    if bit == 0 { } else if bit == 1 { } else if bit == 2 { } else if bit == 3 { }
    else if bit == 4 { } else if bit == 5 { } else if bit == 6 { } else { assert bit == 7; }
  }

  lemma OrSetsOneBit(b: bv8, bit: nat, k: nat)
    requires bit < 8 && k < 8
    ensures (b | Mask(bit)) & Mask(k) != 0 <==> k == bit || b & Mask(k) != 0
  {
    MaskValues(bit);
    MaskValues(k);
  }

  /** A byte is 0 exactly when each of its eight pages is free. */
  lemma ZeroByte(b: bv8)
    ensures b == 0 <==> forall k :: 0 <= k < 8 ==> b & Mask(k) == 0
  {
    forall k | 0 <= k < 8 ensures Mask(k) == [1, 2, 4, 8, 16, 32, 64, 128][k] {
      MaskValues(k);
    }
    if forall k :: 0 <= k < 8 ==> b & Mask(k) == 0 {
      assert b & Mask(0) == 0 && b & Mask(1) == 0 && b & Mask(2) == 0 && b & Mask(3) == 0;
      assert b & Mask(4) == 0 && b & Mask(5) == 0 && b & Mask(6) == 0 && b & Mask(7) == 0;
    }
  }

  /** Two bytes with the same eight bits are the same byte. */
  lemma SameBitsSameByte(b: bv8, c: bv8)
    requires forall k :: 0 <= k < 8 ==> (b & Mask(k) == 0 <==> c & Mask(k) == 0)
    ensures b == c
  {
    forall k | 0 <= k < 8 ensures Mask(k) == [1, 2, 4, 8, 16, 32, 64, 128][k] {
      MaskValues(k);
    }
    assert b & Mask(0) == 0 <==> c & Mask(0) == 0;
    assert b & Mask(1) == 0 <==> c & Mask(1) == 0;
    assert b & Mask(2) == 0 <==> c & Mask(2) == 0;
    assert b & Mask(3) == 0 <==> c & Mask(3) == 0;
    assert b & Mask(4) == 0 <==> c & Mask(4) == 0;
    assert b & Mask(5) == 0 <==> c & Mask(5) == 0;
    assert b & Mask(6) == 0 <==> c & Mask(6) == 0;
    assert b & Mask(7) == 0 <==> c & Mask(7) == 0;
  }

  lemma SetBitInByte(buf: seq<bv8>, page: nat)
    requires page < 8 * |buf|
    ensures Bits(buf[page / 8 := buf[page / 8] | Mask(page % 8)]) == Bits(buf)[page := true]
  {
    var buf' := buf[page / 8 := buf[page / 8] | Mask(page % 8)];
    forall p | 0 <= p < 8 * |buf| ensures Bits(buf')[p] == (p == page || Bits(buf)[p]) {
      BitsAt(buf, p);
      BitsAt(buf', p);
      if p / 8 == page / 8 {
        OrSetsOneBit(buf[page / 8], page % 8, p % 8);
      }
    }
  }

  // ----- The free pages in order -----

  function FreeFrom(bits: seq<bool>, from: nat, limit: nat): (free: seq<nat>)
    requires from <= limit <= |bits|
    decreases limit - from
  {
    if from == limit then []
    else if bits[from] then FreeFrom(bits, from + 1, limit)
    else [from] + FreeFrom(bits, from + 1, limit)
  }

  ghost predicate Increasing(s: seq<nat>) {
    forall i, j :: 0 <= i < j < |s| ==> s[i] < s[j]
  }

  /** FreeFrom lists exactly the free pages of its range, each once, in increasing order. */
  lemma {:induction false} FreeFromIsSorted(bits: seq<bool>, from: nat, limit: nat)
    requires from <= limit <= |bits|
    ensures var free := FreeFrom(bits, from, limit);
      Increasing(free) && forall p :: p in free <==> from <= p < limit && !bits[p]
    decreases limit - from
  {
    if from < limit {
      FreeFromIsSorted(bits, from + 1, limit);
      var rest := FreeFrom(bits, from + 1, limit);
      if !bits[from] {
        var free := [from] + rest;
        forall i, j | 0 <= i < j < |free| ensures free[i] < free[j] {
          assert free[j] == rest[j - 1] && rest[j - 1] in rest;
        }
        forall p ensures p in free <==> from <= p < limit && !bits[p] {
          assert p in free <==> p == from || p in rest;
        }
      }
    }
  }

  lemma FreeAreFree(bits: seq<bool>, from: nat, limit: nat)
    requires from <= limit <= |bits|
    ensures var free := FreeFrom(bits, from, limit);
      Increasing(free) && forall i :: 0 <= i < |free| ==> from <= free[i] < limit && !bits[free[i]]
  {
    FreeFromIsSorted(bits, from, limit);
    var free := FreeFrom(bits, from, limit);
    forall i | 0 <= i < |free| ensures from <= free[i] < limit && !bits[free[i]] {
      assert free[i] in free;
    }
  }

  /** Taking the first free page leaves the others free, in the same order. */
  lemma {:induction false} TakeFirst(bits: seq<bool>, from: nat, limit: nat)
    requires from <= limit <= |bits| && FreeFrom(bits, from, limit) != []
    ensures var free := FreeFrom(bits, from, limit);
      free[0] < limit && FreeFrom(bits[free[0] := true], from, limit) == free[1..]
    decreases limit - from
  {
    FreeFromIsSorted(bits, from, limit);
    var free := FreeFrom(bits, from, limit);
    assert free[0] in free;
    if bits[from] {
      TakeFirst(bits, from + 1, limit);
    } else {
      FreeFromIgnoresEarlier(bits, from, from + 1, limit);
    }
  }

  lemma {:induction false} FreeFromIgnoresEarlier(bits: seq<bool>, page: nat, from: nat, limit: nat)
    requires page < from <= limit <= |bits|
    ensures FreeFrom(bits[page := true], from, limit) == FreeFrom(bits, from, limit)
    decreases limit - from
  {
    if from < limit {
      FreeFromIgnoresEarlier(bits, page, from + 1, limit);
    }
  }

  function MarkAll(bits: seq<bool>, pages: seq<nat>): (marked: seq<bool>)
    requires forall i :: 0 <= i < |pages| ==> pages[i] < |bits|
    ensures |marked| == |bits|
    ensures forall p :: 0 <= p < |bits| ==> marked[p] == (bits[p] || p in pages)
  {
    seq(|bits|, p requires 0 <= p < |bits| => bits[p] || p in pages)
  }

  lemma MarkOneMore(bits: seq<bool>, pages: seq<nat>, t: nat)
    requires t < |pages| && forall i :: 0 <= i < |pages| ==> pages[i] < |bits|
    ensures MarkAll(bits, pages[..t + 1]) == MarkAll(bits, pages[..t])[pages[t] := true]
  {
    assert pages[..t + 1] == pages[..t] + [pages[t]];
  }

  function CountTaken(bits: seq<bool>): nat {
    if bits == [] then 0 else CountTaken(bits[..|bits| - 1]) + (if bits[|bits| - 1] then 1 else 0)
  }

  lemma {:induction false} CountOneMore(bits: seq<bool>, page: nat)
    requires page < |bits| && !bits[page]
    ensures CountTaken(bits[page := true]) == CountTaken(bits) + 1
  {
    var k := |bits| - 1;
    var marked := bits[page := true];
    if page < k {
      CountOneMore(bits[..k], page);
      assert marked[..k] == bits[..k][page := true];
    } else {
      assert marked[..k] == bits[..k];
    }
  }

  /** The number of set bits grows by the number of pages taken. */
  lemma {:induction false} CountMarked(bits: seq<bool>, pages: seq<nat>)
    requires Increasing(pages) && forall i :: 0 <= i < |pages| ==> pages[i] < |bits| && !bits[pages[i]]
    ensures CountTaken(MarkAll(bits, pages)) == CountTaken(bits) + |pages|
    decreases |pages|
  {
    if pages == [] {
      assert MarkAll(bits, pages) == bits;
    } else {
      var k := |pages| - 1;
      CountMarked(bits, pages[..k]);
      var before := MarkAll(bits, pages[..k]);
      assert pages == pages[..k] + [pages[k]];
      assert MarkAll(bits, pages) == before[pages[k] := true];
      CountOneMore(before, pages[k]);
    }
  }

  // ----- The code -----

  function Min(a: nat, b: nat): nat { if a < b then a else b }

  class AllocateMem {
    var buffer: array<bv8>

    constructor (buffer: array<bv8>)
      ensures this.buffer == buffer
    {
      this.buffer := buffer;
    }

    ghost function PageBits(): (bits: seq<bool>)
      reads this, buffer
      ensures |bits| == 8 * buffer.Length
    {
      Bits(buffer[..])
    }

    /** The caller's result array is not the bitmap itself. */
    ghost predicate Apart(res: array<BitIndex>)
      reads this
    {
      (res as object) != (buffer as object)
    }

    /** The free pages that find_free can see, in order. */
    ghost function Free(): seq<nat>
      requires SCANNED_BYTES <= buffer.Length
      reads this, buffer
    {
      FreeFrom(PageBits(), 0, SCANNED_PAGES)
    }

    method CheckFree(index: nat, bit: nat) returns (free: bool)
      requires index < buffer.Length && bit < 8
      ensures free == !PageBits()[8 * index + bit]
    {
      var temp := buffer[index];
      var v := Mask(bit);
      free := temp & v == 0;
      DivModUnique(8 * index + bit, 8, index, bit);
      BitsAt(buffer[..], 8 * index + bit);
    }

    method FindFree() returns (r: BitIndex)
      requires SCANNED_BYTES <= buffer.Length
      ensures Free() != [] ==> r == IndexOf(Free()[0]) && Free()[0] < SCANNED_PAGES && !PageBits()[Free()[0]]
      ensures Free() == [] ==> !r.valid
    {
      ghost var bits, free, page := PageBits(), Free(), 0;
      var index, bit := 0, 0;
      while index <= 16385
        invariant bit < 8 && page == 8 * index + bit <= SCANNED_PAGES
        invariant free == FreeFrom(bits, page, SCANNED_PAGES)
        decreases SCANNED_PAGES - page
      {
        var i := BitIndex(index, bit, true);
        var isFree := CheckFree(index, bit);
        if isFree {
          DivModUnique(page, 8, index, bit);
          assert free[0] == page;
          return i;
        }
        page := page + 1;
        bit := bit + 1;
        if bit == 8 {
          bit := 0;
          index := index + 1;
        }
      }
      r := BitIndex(0, 0, false);
    }

    /** One turn of set_bitmap's loop: the first free page, if there is one, is taken. */
    method TakeFirstFree() returns (val: BitIndex)
      requires SCANNED_BYTES <= buffer.Length
      modifies buffer
      ensures val.valid <==> old(Free()) != []
      ensures old(Free()) != [] ==>
                && val == IndexOf(old(Free())[0]) && old(Free())[0] < SCANNED_PAGES
                && PageBits() == old(PageBits())[old(Free())[0] := true]
                && Free() == old(Free())[1..]
      ensures old(Free()) == [] ==> buffer[..] == old(buffer[..])
    {
      val := FindFree();
      if val.valid {
        ghost var was := buffer[..];
        TakeFirst(PageBits(), 0, SCANNED_PAGES);
        SetBitInByte(was, Free()[0]);
        var temp := buffer[val.index];
        buffer[val.index] := temp | Mask(val.bit);
        assert buffer[..] == was[val.index := temp | Mask(val.bit)];
      }
    }

    /** The same, with the index put into the result. */
    method TakeInto(res: array<BitIndex>, i: nat) returns (taken: bool)
      requires Apart(res) && i < res.Length && SCANNED_BYTES <= buffer.Length
      modifies buffer, res
      ensures taken == (old(Free()) != [])
      ensures taken ==>
                && res[..] == old(res[..])[i := IndexOf(old(Free())[0])] && old(Free())[0] < SCANNED_PAGES
                && PageBits() == old(PageBits())[old(Free())[0] := true] && Free() == old(Free())[1..]
      ensures !taken ==> buffer[..] == old(buffer[..]) && res[..] == old(res[..])
    {
      var val := TakeFirstFree();
      taken := val.valid;
      if taken {
        ghost var now := buffer[..];
        res[i] := val;
        assert buffer[..] == now;
      }
    }

    /** Takes the first `size` free pages, or all of them if there are fewer. */
    method SetBitmap(size: nat, res: array<BitIndex>) returns (enough: bool)
      requires Apart(res)
      requires SCANNED_BYTES <= buffer.Length && size <= res.Length
      modifies buffer, res
      ensures var free := old(Free()); var t := Min(size, |free|);
        && (forall i :: 0 <= i < t ==> free[i] < SCANNED_PAGES)
        && res[..] == Indices(free[..t]) + old(res[..])[t..]
        && PageBits() == MarkAll(old(PageBits()), free[..t])
        && enough == (size <= |free|)
    {
      ghost var bits0, free, res0 := PageBits(), Free(), res[..];
      FreeAreFree(bits0, 0, SCANNED_PAGES);
      var t := 0;
      var i := 0;
      assert MarkAll(bits0, free[..0]) == bits0;
      while i < size
        invariant 0 <= i <= size && t == Min(i, |free|)
        invariant Progress(res, bits0, free, res0, t)
      {
        var taken := TakeNext(res, i, bits0, free, res0, t);
        if taken {
          t := t + 1;
        }
        i := i + 1;
      }
      enough := t == size;
    }

    /** The first t of the free pages have been taken. */
    ghost predicate Progress(res: array<BitIndex>, bits0: seq<bool>, free: seq<nat>, res0: seq<BitIndex>, t: nat)
      reads this, buffer, res
    {
      && SCANNED_BYTES <= buffer.Length && t <= |free| && t <= |res0|
      && (forall i :: 0 <= i < |free| ==> free[i] < SCANNED_PAGES && free[i] < |bits0|)
      && Free() == free[t..]
      && PageBits() == MarkAll(bits0, free[..t])
      && res[..] == Indices(free[..t]) + res0[t..]
    }

    /** One turn of set_bitmap's loop. */
    method TakeNext(res: array<BitIndex>, i: nat,
                    ghost bits0: seq<bool>, ghost free: seq<nat>, ghost res0: seq<BitIndex>, ghost t: nat)
      returns (taken: bool)
      requires Apart(res) && i < res.Length && Progress(res, bits0, free, res0, t) && t == Min(i, |free|)
      modifies buffer, res
      ensures taken == (t < |free|)
      ensures Progress(res, bits0, free, res0, if taken then t + 1 else t)
    {
      taken := TakeInto(res, i);
      if taken {
        OneMoreTaken(bits0, free, res0, t);
      }
    }

    lemma OneMoreTaken(bits0: seq<bool>, free: seq<nat>, res0: seq<BitIndex>, t: nat)
      requires t < |free| && t < |res0| && forall i :: 0 <= i < |free| ==> free[i] < |bits0|
      ensures MarkAll(bits0, free[..t + 1]) == MarkAll(bits0, free[..t])[free[t..][0] := true]
      ensures (Indices(free[..t]) + res0[t..])[t := IndexOf(free[t..][0])] == Indices(free[..t + 1]) + res0[t + 1..]
      ensures free[t..][1..] == free[t + 1..]
    {
      MarkOneMore(bits0, free, t);
      NextIndex(free, res0, t);
    }

    lemma NextIndex(free: seq<nat>, res0: seq<BitIndex>, t: nat)
      requires t < |free| && t < |res0|
      ensures (Indices(free[..t]) + res0[t..])[t := IndexOf(free[t])] == Indices(free[..t + 1]) + res0[t + 1..]
      ensures free[t..][1..] == free[t + 1..] && free[t..][0] == free[t]
    {
    }

    /** Clears the whole byte that holds the bit, when the bit is set. */
    method DeallocateMem(index: nat, bit: nat) returns (free: bool)
      requires index < buffer.Length && bit < 8
      modifies buffer
      ensures free
      ensures old(Taken(buffer[..], 8 * index + bit)) ==> buffer[..] == old(buffer[..])[index := 0]
      ensures !old(Taken(buffer[..], 8 * index + bit)) ==> buffer[..] == old(buffer[..])
    {
      DivModUnique(8 * index + bit, 8, index, bit);
      BitsAt(buffer[..], 8 * index + bit);
      free := CheckFree(index, bit);
      if free { return true; }
      buffer[index] := 0;
      ZeroByte(0);
      BitsAt(buffer[..], 8 * index + bit);
      free := CheckFree(index, bit);
    }

    method FreePages(res: array<BitIndex>, size: nat)
      requires Apart(res)
      requires size <= res.Length
      requires forall i :: 0 <= i < size ==> res[i].index < buffer.Length && res[i].bit < 8
      modifies buffer
      ensures Freed(old(buffer[..]), buffer[..], PagesOf(res[..size]))
    {
      ghost var buf0 := buffer[..];
      ghost var pages := PagesOf(res[..size]);
      var i := 0;
      while i < size
        invariant 0 <= i <= size
        invariant forall k :: 0 <= k < size ==> res[k].index < buffer.Length && res[k].bit < 8
        invariant Freed(buf0, buffer[..], pages[..i])
        invariant res[..size] == old(res[..size])
      {
        assert res[..size][i] == res[i];
        FreeOne(res[i], buf0, pages, i);
        i := i + 1;
      }
      assert pages[..size] == pages;
    }

    method FreeOne(b: BitIndex, ghost buf0: seq<bv8>, ghost pages: seq<nat>, ghost i: nat)
      requires b.index < buffer.Length && b.bit < 8 && i < |pages| && pages[i] == PageOf(b)
      requires Freed(buf0, buffer[..], pages[..i])
      modifies buffer
      ensures Freed(buf0, buffer[..], pages[..i + 1])
    {
      ghost var was := buffer[..];
      var _ := DeallocateMem(b.index, b.bit);
      DivModUnique(PageOf(b), 8, b.index, b.bit);
      FreedStep(buf0, was, buffer[..], pages, i);
    }

    /** The number of pages allocated, 0 if there were not enough. */
    method Allocate(size: nat, res: array<BitIndex>) returns (pages: nat)
      requires Apart(res)
      requires SCANNED_BYTES <= buffer.Length && PagesFor(size) <= res.Length
      modifies buffer, res
      ensures var free := old(Free()); var n := PagesFor(size); var t := Min(n, |free|);
        && pages == (if n <= |free| then n else 0)
        && (forall i :: 0 <= i < t ==> free[i] < SCANNED_PAGES)
        && res[..] == Indices(free[..t]) + old(res[..])[t..]
        && PageBits() == MarkAll(old(PageBits()), free[..t])
    {
      if size < 4096 {
        var one := SetBitmap(1, res);
        if one { return 1; }
        return 0;
      }
      var val := size / 4096;
      var rem := size % 4096;
      if val > 0 && rem > 0 { val := val + 1; }
      var all := SetBitmap(val, res);
      if all { return val; }
      return 0;
    }
  }

  function PagesFor(size: nat): (n: nat)
    ensures n >= 1 && 4096 * n >= size && (n == 1 || 4096 * (n - 1) < size)
  {
    if size == 0 then 1 else (size + 4095) / 4096
  }

  // ----- Freeing -----

  ghost predicate Touches(buf: seq<bv8>, pages: seq<nat>, k: nat) {
    exists i :: 0 <= i < |pages| && pages[i] < 8 * |buf| && pages[i] / 8 == k && Taken(buf, pages[i])
  }

  /** What free_pages does to the buffer. */
  ghost predicate Freed(buf: seq<bv8>, buf': seq<bv8>, pages: seq<nat>) {
    && |buf'| == |buf|
    && forall k :: 0 <= k < |buf| ==> buf'[k] == if Touches(buf, pages, k) then 0 else buf[k]
  }

  lemma FreedStep(buf0: seq<bv8>, was: seq<bv8>, now: seq<bv8>, pages: seq<nat>, i: nat)
    requires i < |pages| && pages[i] < 8 * |buf0|
    requires Freed(buf0, was, pages[..i])
    requires now == if Taken(was, pages[i]) then was[pages[i] / 8 := 0] else was
    ensures Freed(buf0, now, pages[..i + 1])
  {
    var page := pages[i];
    ZeroByte(0);
    OneMoreTouched(buf0, pages, i, page / 8);
    assert was[page / 8] == if Touches(buf0, pages[..i], page / 8) then 0 else buf0[page / 8];
    forall k | 0 <= k < |buf0| ensures now[k] == if Touches(buf0, pages[..i + 1], k) then 0 else buf0[k] {
      OneMoreTouched(buf0, pages, i, k);
    }
  }

  lemma OneMoreTouched(buf: seq<bv8>, pages: seq<nat>, i: nat, k: nat)
    requires i < |pages| && pages[i] < 8 * |buf|
    ensures Touches(buf, pages[..i + 1], k) <==>
      Touches(buf, pages[..i], k) || (k == pages[i] / 8 && Taken(buf, pages[i]))
  {
    var before, upto := pages[..i], pages[..i + 1];
    assert upto[i] == pages[i];
    if Touches(buf, before, k) {
      var j :| 0 <= j < |before| && before[j] < 8 * |buf| && before[j] / 8 == k && Taken(buf, before[j]);
      assert upto[j] == before[j];
    }
    if Touches(buf, upto, k) {
      var j :| 0 <= j < |upto| && upto[j] < 8 * |buf| && upto[j] / 8 == k && Taken(buf, upto[j]);
      assert j < i ==> before[j] == upto[j];
    }
  }

  /** Freeing what was just allocated restores the bitmap if and only if every byte the
      allocation touched was wholly free before it. */
  lemma FreeUndoesAllocate(buf0: seq<bv8>, buf1: seq<bv8>, buf2: seq<bv8>, pages: seq<nat>)
    requires |buf1| == |buf0|
    requires forall i :: 0 <= i < |pages| ==> pages[i] < 8 * |buf0| && !Taken(buf0, pages[i])
    requires Bits(buf1) == MarkAll(Bits(buf0), pages)
    requires Freed(buf1, buf2, pages)
    ensures buf2 == buf0 <==> forall i :: 0 <= i < |pages| ==> buf0[pages[i] / 8] == 0
  {
    forall i | 0 <= i < |pages| ensures buf2[pages[i] / 8] == 0 {
      BitsAt(buf1, pages[i]);
      assert Touches(buf1, pages, pages[i] / 8);
    }
    if forall i :: 0 <= i < |pages| ==> buf0[pages[i] / 8] == 0 {
      forall k | 0 <= k < |buf0| ensures buf2[k] == buf0[k] {
        if Touches(buf1, pages, k) {
        } else {
          UntouchedByte(buf0, buf1, pages, k);
        }
      }
    }
  }

  lemma UntouchedByte(buf0: seq<bv8>, buf1: seq<bv8>, pages: seq<nat>, k: nat)
    requires |buf1| == |buf0| && k < |buf0|
    requires forall i :: 0 <= i < |pages| ==> pages[i] < 8 * |buf0|
    requires Bits(buf1) == MarkAll(Bits(buf0), pages) && !Touches(buf1, pages, k)
    ensures buf1[k] == buf0[k]
  {
    forall b | 0 <= b < 8 ensures buf1[k] & Mask(b) == 0 <==> buf0[k] & Mask(b) == 0 {
      var p := 8 * k + b;
      DivModUnique(p, 8, k, b);
      BitsAt(buf0, p);
      BitsAt(buf1, p);
      if p in pages {
        assert Touches(buf1, pages, k);
      }
    }
    SameBitsSameByte(buf1[k], buf0[k]);
  }

  // ----- Allocation without freeing -----

  ghost predicate Prefix(bits: seq<bool>, n: nat) {
    n <= |bits| && forall p :: 0 <= p < |bits| ==> (bits[p] <==> p < n)
  }

  lemma {:induction false} PrefixFree(bits: seq<bool>, n: nat, from: nat, limit: nat)
    requires Prefix(bits, n) && n <= limit <= |bits| && from <= limit
    ensures var free := FreeFrom(bits, from, limit); var start := if from < n then n else from;
      |free| == limit - start && forall i :: 0 <= i < |free| ==> free[i] == start + i
    decreases limit - from
  {
    if from < limit {
      PrefixFree(bits, n, from + 1, limit);
    }
  }

  /** From a prefix, first fit takes the pages right behind it and leaves a prefix: so the
      pages of every allocation of an allocate-only run are consecutive. */
  lemma PrefixAllocation(bits: seq<bool>, n: nat, size: nat, limit: nat)
    requires Prefix(bits, n) && n + size <= limit <= |bits|
    ensures var free := FreeFrom(bits, 0, limit);
      && size <= |free|
      && (forall i :: 0 <= i < size ==> free[i] == n + i)
      && (forall i :: 0 <= i < size ==> free[..size][i] < |bits|)
      && Prefix(MarkAll(bits, free[..size]), n + size)
  {
    PrefixFree(bits, n, 0, limit);
    var free := FreeFrom(bits, 0, limit);
    forall p | 0 <= p < |bits| ensures p in free[..size] <==> n <= p < n + size {
      if n <= p < n + size {
        assert free[..size][p - n] == p;
      }
    }
  }
}
