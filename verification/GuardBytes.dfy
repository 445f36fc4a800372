/**
  The public side of mhandle.c: blocks with two guard bytes on each side, kept in one address
  space, and the outcome of every malloc, realloc and free on them.
 */
module GuardBytes {
  import opened Basics
  import opened HashTable
  import opened MHandle

  const MARK_END: Byte := 0xa5
  const MARK_START: Byte := 0x5a
  const RANGE: nat := 2           // MHANDLE_CORRUPT_RANGE
  const TOTAL: nat := 4           // MHANDLE_CORRUPT_TOTAL

  ghost predicate GuardBefore(mem: seq<Byte>, eff_ptr: nat) {
    eff_ptr + RANGE <= |mem| && forall i :: eff_ptr <= i < eff_ptr + RANGE ==> mem[i] == MARK_START
  }

  ghost predicate GuardAfter(mem: seq<Byte>, eff_end: nat) {
    RANGE <= eff_end <= |mem| && forall i :: eff_end - RANGE <= i < eff_end ==> mem[i] == MARK_END
  }

  /** The guard bytes of the user block of `size` bytes at `ptr` are as they were written. */
  ghost predicate Intact(mem: seq<Byte>, ptr: Ptr, size: nat) {
    RANGE <= ptr && GuardBefore(mem, ptr - RANGE) && GuardAfter(mem, ptr + size + RANGE)
  }

  /** A store of one byte by the program. */
  datatype Store = Store(addr: nat, value: Byte)

  ghost function AfterStores(mem: seq<Byte>, stores: seq<Store>): (r: seq<Byte>)
    ensures |r| == |mem|
  {
    if stores == [] then mem
    else
      var m := AfterStores(mem, stores[..|stores| - 1]);
      var s := stores[|stores| - 1];
      if s.addr < |m| then m[s.addr := s.value] else m
  }

  /** The address is one of the guard bytes of the block. */
  predicate InGuards(addr: nat, ptr: Ptr, size: nat) {
    ptr - RANGE <= addr < ptr || ptr + size <= addr < ptr + size + RANGE
  }

  /** Any program that stays off a block's guard bytes leaves the block passing its check. */
  lemma {:induction false} StoresKeepGuards(mem: seq<Byte>, stores: seq<Store>, ptr: Ptr, size: nat)
    requires Intact(mem, ptr, size)
    requires forall i :: 0 <= i < |stores| ==> !InGuards(stores[i].addr, ptr, size)
    ensures Intact(AfterStores(mem, stores), ptr, size)
  {
    if stores != [] {
      StoresKeepGuards(mem, stores[..|stores| - 1], ptr, size);
      assert !InGuards(stores[|stores| - 1].addr, ptr, size);
    }
  }

  /** A byte of a guard that differs from its mark is enough for the check to fail. */
  lemma ChangedGuardIsSeen(mem: seq<Byte>, ptr: Ptr, size: nat, addr: nat)
    requires InGuards(addr, ptr, size) && addr < |mem|
    requires mem[addr] != if addr < ptr then MARK_START else MARK_END
    ensures !Intact(mem, ptr, size)
  {
    if addr < ptr {
      assert ptr - RANGE <= addr;
    }
  }

  /** How a call of free or realloc ends. */
  datatype Outcome =
    | Done
    | InvalidPointer                                  // message and abort
    | Unsupported                                     // realloc of an externally registered pointer
    | SizeAssertion                                   // assert(size > 0) in mhandle_check_corrupt
    | Corrupted(side: int, prev: int, next: int)      // message with the neighbours and abort

  /** mhandle_mark_corrupt */
  method MarkCorrupt(mem: array<Byte>, eff_ptr: nat, eff_size: nat)
    requires TOTAL <= eff_size && eff_ptr + eff_size <= mem.Length
    modifies mem
    ensures Intact(mem[..], eff_ptr + RANGE, eff_size - TOTAL)
    ensures forall i :: 0 <= i < mem.Length && !InGuards(i, eff_ptr + RANGE, eff_size - TOTAL) ==>
              mem[i] == old(mem[i])
  {
    for i := 0 to RANGE
      invariant forall k :: eff_ptr <= k < eff_ptr + i ==> mem[k] == MARK_START
      invariant forall k :: 0 <= k < mem.Length && !(eff_ptr <= k < eff_ptr + i) ==> mem[k] == old(mem[k])
    {
      mem[eff_ptr + i] := MARK_START;
    }
    var last := eff_ptr + eff_size - RANGE;
    for i := 0 to RANGE
      invariant forall k :: eff_ptr <= k < eff_ptr + RANGE ==> mem[k] == MARK_START
      invariant forall k :: last <= k < last + i ==> mem[k] == MARK_END
      invariant forall k :: 0 <= k < mem.Length && !(eff_ptr <= k < eff_ptr + RANGE) && !(last <= k < last + i) ==>
                  mem[k] == old(mem[k])
    {
      mem[last + i] := MARK_END;
    }
  }

  /** Index i holds the greatest live pointer below ptr, or i is -1 and there is none. */
  ghost predicate NearestBelow(t: seq<Item>, i: int, ptr: Ptr) {
    if i == -1 then forall j :: 0 <= j < |t| && t[j].Live() ==> t[j].ptr >= ptr
    else
      && 0 <= i < |t| && t[i].Live() && t[i].ptr < ptr
      && forall j :: 0 <= j < |t| && t[j].Live() && t[j].ptr < ptr ==> t[j].ptr <= t[i].ptr
  }

  /** Index i holds the least live pointer above ptr, or i is -1 and there is none. */
  ghost predicate NearestAbove(t: seq<Item>, i: int, ptr: Ptr) {
    if i == -1 then forall j :: 0 <= j < |t| && t[j].Live() ==> t[j].ptr <= ptr
    else
      && 0 <= i < |t| && t[i].Live() && t[i].ptr > ptr
      && forall j :: 0 <= j < |t| && t[j].Live() && t[j].ptr > ptr ==> t[j].ptr >= t[i].ptr
  }

  /** The neighbour scan of mhandle_check_corrupt. */
  method FindNeighbours(table: array<Item>, ptr: Ptr) returns (prev: int, next: int)
    ensures NearestBelow(table[..], prev, ptr) && NearestAbove(table[..], next, ptr)
  {
    prev, next := -1, -1;
    var i := 0;
    while i < table.Length
      invariant 0 <= i <= table.Length
      invariant prev < i && next < i
      invariant NearestBelow(table[..i], prev, ptr) && NearestAbove(table[..i], next, ptr)
    {
      assert table[..i + 1] == table[..i] + [table[i]];
      if table[i].active && !table[i].removed {
        if table[i].ptr < ptr && (prev == -1 || table[i].ptr > table[prev].ptr) {
          prev := i;
        }
        if table[i].ptr > ptr && (next == -1 || table[i].ptr < table[next].ptr) {
          next := i;
        }
      }
      i := i + 1;
    }
    assert table[..i] == table[..];
  }

  /** mhandle_check_corrupt */
  method CheckCorrupt(mem: array<Byte>, table: array<Item>, eff_ptr: nat, eff_size: nat) returns (outcome: Outcome)
    requires TOTAL <= eff_size && eff_ptr + eff_size <= mem.Length
    ensures outcome.Done? || outcome.SizeAssertion? || outcome.Corrupted?
    ensures outcome.SizeAssertion? <==> eff_size == TOTAL
    ensures outcome.Done? <==> eff_size > TOTAL && Intact(mem[..], eff_ptr + RANGE, eff_size - TOTAL)
    ensures outcome.Corrupted? ==>
              && (outcome.side == 2 <==> !GuardAfter(mem[..], eff_ptr + eff_size))
              && (outcome.side == 1 <==> GuardAfter(mem[..], eff_ptr + eff_size))
              && NearestBelow(table[..], outcome.prev, eff_ptr + RANGE)
              && NearestAbove(table[..], outcome.next, eff_ptr + RANGE)
  {
    if eff_size - TOTAL == 0 {
      return SizeAssertion;
    }
    var corrupt := 0;
    for i := 0 to RANGE
      invariant corrupt == 0 || corrupt == 1
      invariant corrupt == 0 <==> forall k :: eff_ptr <= k < eff_ptr + i ==> mem[k] == MARK_START
    {
      if mem[eff_ptr + i] != MARK_START {
        corrupt := 1;
      }
    }
    ghost var front := corrupt;
    var last := eff_ptr + eff_size - RANGE;
    for i := 0 to RANGE
      invariant corrupt == 2 || corrupt == front
      invariant corrupt == 2 <==> !forall k :: last <= k < last + i ==> mem[k] == MARK_END
    {
      if mem[last + i] != MARK_END {
        corrupt := 2;
      }
    }
    if corrupt == 0 {
      return Done;
    }
    var prev, next := FindNeighbours(table, eff_ptr + RANGE);
    return Corrupted(corrupt, prev, next);
  }

  /** The bytes a live block occupies, guards included. */
  ghost predicate Owns(p: Ptr, b: Block, addr: int) {
    if b.corrupt_info then p - RANGE <= addr < p + b.size + RANGE else p <= addr < p + b.size
  }

  /** Blocks lie inside memory and do not overlap: what the C library's allocator provides. */
  ghost predicate Separate(m: map<Ptr, Block>, limit: nat) {
    && (forall p :: p in m ==> p + m[p].size <= limit)
    && (forall p :: p in m && m[p].corrupt_info ==> RANGE <= p && p + m[p].size + RANGE <= limit)
    && (forall p, q, a: int :: p in m && q in m && p != q && Owns(p, m[p], a) ==> !Owns(q, m[q], a))
  }

  /** The region [start, start + size) belongs to no live block. */
  ghost predicate Free(m: map<Ptr, Block>, start: nat, size: nat) {
    forall p, a: int :: p in m && start <= a < start + size ==> !Owns(p, m[p], a)
  }

  /** Every block with guards passes its check. */
  ghost predicate GuardsHold(m: map<Ptr, Block>, mem: seq<Byte>) {
    forall p :: p in m && m[p].corrupt_info ==> Intact(mem, p, m[p].size)
  }

  /** No block other than p sees a change. */
  ghost predicate Untouched(m: map<Ptr, Block>, p: Ptr, before: seq<Byte>, after: seq<Byte>) {
    && |before| == |after|
    && forall q, a: int :: q in m && q != p && Owns(q, m[q], a) && 0 <= a < |before| ==> after[a] == before[a]
  }

  /** An operation on one block cannot make the check of another one fail. */
  lemma OthersStayIntact(m: map<Ptr, Block>, p: Ptr, before: seq<Byte>, after: seq<Byte>)
    requires GuardsHold(m, before) && Untouched(m, p, before, after)
    ensures GuardsHold(m - {p}, after)
  {
    forall q | q in m && q != p && m[q].corrupt_info ensures Intact(after, q, m[q].size) {
      assert Intact(before, q, m[q].size);
      forall a: int | q - RANGE <= a < q + m[q].size + RANGE ensures after[a] == before[a] {
        assert Owns(q, m[q], a);
      }
    }
  }

  lemma GuardsWithBlock(m: map<Ptr, Block>, p: Ptr, b: Block, mem: seq<Byte>)
    requires GuardsHold(m, mem) && Intact(mem, p, b.size)
    ensures GuardsHold(m[p := b], mem)
  {
  }

  /** Writing only inside a free region leaves every block alone. */
  lemma FreeRegionUntouched(m: map<Ptr, Block>, start: nat, size: nat, before: seq<Byte>, after: seq<Byte>)
    requires |before| == |after| && Free(m, start, size)
    requires forall a :: 0 <= a < |before| && !(start <= a < start + size) ==> after[a] == before[a]
    ensures Untouched(m, start + RANGE, before, after)
  {}

  function Smaller(a: nat, b: nat): nat {
    if a < b then a else b
  }

  /** The n bytes at dst are those that were at src. */
  ghost predicate SameBytes(before: seq<Byte>, src: nat, after: seq<Byte>, dst: nat, n: nat) {
    src + n <= |before| && dst + n <= |after| && after[dst..dst + n] == before[src..src + n]
  }

  /** Writing the guards of the new block leaves the bytes inside as they were moved. */
  lemma InsideIsKept(before: seq<Byte>, p: Ptr, moved: seq<Byte>, p': Ptr, n: nat, size: nat, after: seq<Byte>)
    requires RANGE <= p && RANGE <= p' && n <= size && |after| == |moved|
    requires SameBytes(before, p - RANGE, moved, p' - RANGE, n + TOTAL)
    requires forall a :: 0 <= a < |moved| && !InGuards(a, p', size) ==> after[a] == moved[a]
    ensures SameBytes(before, p, after, p', n)
  {
    var b, m := before[p - RANGE..p - RANGE + n + TOTAL], moved[p' - RANGE..p' - RANGE + n + TOTAL];
    var u, v := after[p'..p' + n], before[p..p + n];
    forall i | 0 <= i < |u|
      ensures u[i] == v[i]
    {
      assert b[i + RANGE] == v[i] && m[i + RANGE] == u[i];
    }
  }

  /** Two changes, each of which leaves the other blocks alone; the second is to a block that takes the place of p. */
  lemma TwoChanges(m: map<Ptr, Block>, p: Ptr, p': Ptr, before: seq<Byte>, mid: seq<Byte>, after: seq<Byte>)
    requires p' !in m - {p} && Untouched(m - {p}, p', before, mid) && Untouched(m - {p}, p', mid, after)
    ensures Untouched(m, p, before, after)
  {
    forall q, a: int | q in m && q != p && Owns(q, m[q], a) && 0 <= a < |before|
      ensures after[a] == before[a]
    {
      assert q in m - {p} && q != p' && Owns(q, (m - {p})[q], a);
    }
  }

  /** A block laid in a free region overlaps no other. */
  lemma SeparateWithBlock(m: map<Ptr, Block>, p: Ptr, b: Block, limit: nat)
    requires Separate(m, limit) && p !in m && p + b.size <= limit
    requires b.corrupt_info ==> RANGE <= p && p + b.size + RANGE <= limit
    requires if b.corrupt_info then p >= RANGE && Free(m, p - RANGE, b.size + TOTAL) else Free(m, p, b.size)
    ensures Separate(m[p := b], limit)
  {}

  class Heap {
    const mem: array<Byte>
    const tracker: Tracker

    ghost function Live(): map<Ptr, Block>
      reads tracker, tracker.table
    {
      Blocks(tracker.Items())
    }

    ghost predicate Valid()
      reads tracker, tracker.table
    {
      tracker.Valid() && Separate(Live(), mem.Length)
    }

    /** Every live block with guards passes its check. */
    ghost predicate AllIntact()
      reads tracker, tracker.table, mem
    {
      GuardsHold(Live(), mem[..])
    }

    /** No other live block sees a change. */
    twostate predicate OthersUntouched(p: Ptr)
      reads tracker, tracker.table, mem
    {
      Untouched(old(Live()), p, old(mem[..]), mem[..])
    }

    constructor (limit: nat)
      ensures Valid() && Live() == map[] && mem.Length == limit && fresh(mem) && fresh(tracker) && fresh(tracker.table)
      ensures tracker.table.Length == INITIAL_SIZE
    {
      mem := new Byte[limit](_ => 0);
      tracker := new Tracker();
    }

    /** mhandle_malloc, where the C library returned eff_ptr. */
    method Malloc(size: nat, at: string, eff_ptr: nat) returns (ptr: Ptr, ghost slot: int)
      requires Valid() && eff_ptr + size + TOTAL <= mem.Length
      requires Free(Live(), eff_ptr, size + TOTAL) && eff_ptr + RANGE !in Live()
      modifies tracker, tracker.table, mem
      ensures Valid() && (tracker.table == old(tracker.table) || fresh(tracker.table))
      ensures ptr == eff_ptr + RANGE && Live() == old(Live())[ptr := Block(size, at, true)]
      ensures tracker.count == old(tracker.count) + 1 && tracker.mem_used == old(tracker.mem_used) + size
      ensures Intact(mem[..], ptr, size) && OthersUntouched(ptr)
      ensures forall a :: 0 <= a < mem.Length && !InGuards(a, ptr, size) ==> mem[a] == old(mem[a])
      ensures old(AllIntact()) ==> AllIntact()
      ensures 0 <= slot < tracker.table.Length && tracker.table[slot].Holds(ptr)
      ensures old(tracker.count) < old(tracker.table.Length) / 2 ==>
                && tracker.table == old(tracker.table) && !old(tracker.Items())[slot].Live()
                && tracker.Items() == old(tracker.Items())[slot := tracker.table[slot]]
                && forall j :: 0 <= j < tracker.table.Length && Before(ptr, j, slot, tracker.table.Length) ==>
                     old(tracker.Items())[j].Live()
    {
      ptr := eff_ptr + RANGE;
      ghost var m, b := Live(), Block(size, at, true);
      MarkNew(eff_ptr, size);
      SeparateWithBlock(m, ptr, b, mem.Length);
      if old(AllIntact()) {
        GuardsWithBlock(m, ptr, b, mem[..]);
      }
      slot := tracker.Insert(ptr, size, at, true);
      assert Live() == m[ptr := b];
    }

    /** Marks a block that is not in the table yet. */
    method MarkNew(eff_ptr: nat, size: nat)
      requires Valid() && eff_ptr + size + TOTAL <= mem.Length && Free(Live(), eff_ptr, size + TOTAL)
      modifies mem
      ensures Valid() && Intact(mem[..], eff_ptr + RANGE, size)
      ensures Untouched(Live(), eff_ptr + RANGE, old(mem[..]), mem[..])
      ensures forall a :: 0 <= a < mem.Length && !InGuards(a, eff_ptr + RANGE, size) ==> mem[a] == old(mem[a])
      ensures old(AllIntact()) && eff_ptr + RANGE !in Live() ==> AllIntact()
    {
      MarkCorrupt(mem, eff_ptr, size + TOTAL);
      FreeRegionUntouched(Live(), eff_ptr, size + TOTAL, old(mem[..]), mem[..]);
      if old(AllIntact()) && eff_ptr + RANGE !in Live() {
        OthersStayIntact(Live(), eff_ptr + RANGE, old(mem[..]), mem[..]);
        assert Live() - {eff_ptr + RANGE} == Live();
      }
    }

    /** __mhandle_register_ptr: tracks a block that was not allocated here and has no guards. */
    method Register(ptr: Ptr, size: nat, at: string)
      requires Valid() && ptr + size <= mem.Length && Free(Live(), ptr, size) && ptr !in Live()
      modifies tracker, tracker.table
      ensures Valid() && (tracker.table == old(tracker.table) || fresh(tracker.table))
      ensures Live() == old(Live())[ptr := Block(size, at, false)]
      ensures tracker.count == old(tracker.count) + 1 && tracker.mem_used == old(tracker.mem_used) + size
    {
      SeparateWithBlock(Live(), ptr, Block(size, at, false), mem.Length);
      var _ := tracker.Insert(ptr, size, at, false);
    }

    /** mhandle_free. The lookup must be known to end: see HashTable.SearchEndsExactly. */
    method FreeBlock(ptr: Ptr) returns (outcome: Outcome)
      requires Valid() && (ptr != 0 ==> SearchEnds(tracker.Items(), ptr))
      modifies tracker, tracker.table, mem
      ensures Valid() && tracker.table == old(tracker.table) && !outcome.Unsupported?
      ensures outcome.Done? <==>
                ptr == 0 || (ptr in old(Live()) && (old(Live())[ptr].corrupt_info ==>
                  old(Live())[ptr].size > 0 && Intact(old(mem[..]), ptr, old(Live())[ptr].size)))
      ensures outcome.InvalidPointer? <==> ptr != 0 && ptr !in old(Live())
      ensures outcome.SizeAssertion? <==>
                ptr != 0 && ptr in old(Live()) && old(Live())[ptr].corrupt_info && old(Live())[ptr].size == 0
      ensures outcome.Corrupted? ==>
                && NearestBelow(old(tracker.Items()), outcome.prev, ptr)
                && NearestAbove(old(tracker.Items()), outcome.next, ptr)
      ensures outcome.Done? && ptr != 0 ==>
                && Live() == old(Live()) - {ptr} && tracker.count == old(tracker.count) - 1
                && tracker.mem_used == old(tracker.mem_used) - old(Live())[ptr].size
      ensures outcome.Done? && ptr != 0 ==>
                forall a: int :: Owns(ptr, old(Live())[ptr], a) && 0 <= a < mem.Length ==> mem[a] == 0
      ensures !outcome.Done? || ptr == 0 ==> Live() == old(Live()) && mem[..] == old(mem[..])
      ensures OthersUntouched(ptr)
      ensures old(AllIntact()) ==> AllIntact() && !outcome.Corrupted?
      ensures forall j :: 0 <= j < tracker.table.Length ==> tracker.table[j].active == old(tracker.Items())[j].active
    {
      if ptr == 0 {
        return Done;
      }
      KeysAreLive(tracker.Items(), ptr);
      var item := tracker.Get(ptr);
      if item < 0 {
        return InvalidPointer;
      }
      ValueOfSlot(tracker.Items(), item);
      outcome := CheckEntry(tracker.table[item]);
      if outcome.Done? {
        Release(tracker.table[item]);
      }
    }

    /**
      mhandle_realloc, where the C library's realloc returned eff_ptr. The block may stay where it
      is: the new region only has to avoid the other blocks.
     */
    method Realloc(ptr: Ptr, size: nat, at: string, eff_ptr: nat) returns (outcome: Outcome, new_ptr: Ptr)
      requires Valid() && eff_ptr + size + TOTAL <= mem.Length && (ptr != 0 ==> SearchEnds(tracker.Items(), ptr))
      requires Free(Live() - {ptr}, eff_ptr, size + TOTAL) && eff_ptr + RANGE !in Live() - {ptr}
      requires 0 !in Live()
      modifies tracker, tracker.table, mem
      ensures Valid() && (tracker.table == old(tracker.table) || fresh(tracker.table))
      ensures outcome.InvalidPointer? <==> ptr != 0 && ptr !in old(Live())
      ensures outcome.Unsupported? <==> ptr in old(Live()) && size > 0 && !old(Live())[ptr].corrupt_info
      ensures outcome.SizeAssertion? <==> ptr in old(Live()) && old(Live())[ptr].corrupt_info && old(Live())[ptr].size == 0
      ensures outcome.Corrupted? <==>
                && ptr in old(Live()) && old(Live())[ptr].corrupt_info && old(Live())[ptr].size > 0
                && !Intact(old(mem[..]), ptr, old(Live())[ptr].size)
      ensures !outcome.Done? ==> Live() == old(Live()) && mem[..] == old(mem[..]) && new_ptr == 0
      ensures outcome.Done? && ptr != 0 && size == 0 ==> new_ptr == 0 && Live() == old(Live()) - {ptr}
      ensures outcome.Done? && (ptr == 0 || size > 0) ==>
                && new_ptr == eff_ptr + RANGE && Intact(mem[..], new_ptr, size)
                && tracker.count == old(tracker.count) + (if ptr == 0 then 1 else 0)
                && Live() == (old(Live()) - {ptr})[new_ptr := Block(size, at, true)]
                && tracker.mem_used == old(tracker.mem_used) + size
                                       - (if ptr in old(Live()) then old(Live())[ptr].size else 0)
      ensures outcome.Done? && ptr != 0 && size > 0 ==>
                SameBytes(old(mem[..]), ptr, mem[..], new_ptr, Smaller(size, old(Live())[ptr].size))
      ensures OthersUntouched(ptr)
    {
      new_ptr := 0;
      if ptr == 0 {
        ghost var before, bytes := Live(), mem[..];
        assert before - {ptr} == before;
        ghost var slot;
        new_ptr, slot := Malloc(size, at, eff_ptr);
        forall q, a: int | q in before && Owns(q, before[q], a) && 0 <= a < mem.Length
          ensures mem[a] == bytes[a]
        {
          assert q != new_ptr;
        }
        return Done, new_ptr;
      }
      if size == 0 {
        outcome := FreeBlock(ptr);
        return;
      }
      KeysAreLive(tracker.Items(), ptr);
      var item := tracker.Get(ptr);
      if item < 0 {
        return InvalidPointer, 0;
      }
      ValueOfSlot(tracker.Items(), item);
      var entry := tracker.table[item];
      if !entry.corrupt_info {
        return Unsupported, 0;
      }
      outcome := CheckEntry(entry);
      if outcome.Done? {
        new_ptr := Replace(ptr, size, at, eff_ptr);
      }
    }

    /** The part of mhandle_realloc that runs once the old block has passed its check. */
    method Replace(ptr: Ptr, size: nat, at: string, eff_ptr: nat) returns (new_ptr: Ptr)
      requires Valid() && eff_ptr + size + TOTAL <= mem.Length && ptr in Live() && SearchEnds(tracker.Items(), ptr)
      requires Live()[ptr].corrupt_info
      requires Free(Live() - {ptr}, eff_ptr, size + TOTAL) && eff_ptr + RANGE !in Live() - {ptr}
      modifies tracker, tracker.table, mem
      ensures Valid() && (tracker.table == old(tracker.table) || fresh(tracker.table))
      ensures new_ptr == eff_ptr + RANGE && Intact(mem[..], new_ptr, size)
      ensures Live() == (old(Live()) - {ptr})[new_ptr := Block(size, at, true)]
      ensures tracker.mem_used == old(tracker.mem_used) + size - old(Live())[ptr].size
      ensures tracker.count == old(tracker.count)
      ensures OthersUntouched(ptr)
      ensures SameBytes(old(mem[..]), ptr, mem[..], new_ptr, Smaller(size, old(Live())[ptr].size))
    {
      ghost var before, bytes := Live(), mem[..];
      var kept := RemoveForReplace(ptr, size);
      MoveBytes(ptr - RANGE, eff_ptr, kept + TOTAL);
      ghost var moved := mem[..];
      FreeRegionUntouched(before - {ptr}, eff_ptr, size + TOTAL, bytes, moved);
      ghost var slot;
      new_ptr, slot := Malloc(size, at, eff_ptr);
      TwoChanges(before, ptr, new_ptr, bytes, moved, mem[..]);
      InsideIsKept(bytes, ptr, moved, new_ptr, kept, size, mem[..]);
    }

    /** Takes the old entry out; the result is the number of bytes that both blocks have. */
    method RemoveForReplace(ptr: Ptr, size: nat) returns (kept: nat)
      requires Valid() && ptr in Live() && SearchEnds(tracker.Items(), ptr) && Live()[ptr].corrupt_info
      modifies tracker, tracker.table
      ensures Valid() && tracker.table == old(tracker.table)
      ensures Live() == old(Live()) - {ptr} && tracker.count == old(tracker.count) - 1
      ensures tracker.mem_used == old(tracker.mem_used) - old(Live())[ptr].size
      ensures kept == Smaller(size, old(Live())[ptr].size)
    {
      KeysAreLive(tracker.Items(), ptr);
      var ok, was := tracker.Remove(ptr);
      kept := Smaller(size, was);
    }

    /** The copying that the C library's realloc does; the two regions may overlap. */
    method MoveBytes(src: nat, dst: nat, count: nat)
      requires src + count <= mem.Length && dst + count <= mem.Length
      modifies mem
      ensures SameBytes(old(mem[..]), src, mem[..], dst, count)
      ensures forall a :: 0 <= a < mem.Length && !(dst <= a < dst + count) ==> mem[a] == old(mem[a])
    {
      var saved := mem[src..src + count];
      for i := 0 to count
        invariant forall k :: 0 <= k < i ==> mem[dst + k] == saved[k]
        invariant forall a :: 0 <= a < mem.Length && !(dst <= a < dst + i) ==> mem[a] == old(mem[a])
      {
        mem[dst + i] := saved[i];
      }
      assert mem[..][dst..dst + count] == saved;
    }

    /** The corruption check of a block that is about to be released, for blocks that have guards. */
    method CheckEntry(entry: Item) returns (outcome: Outcome)
      requires Valid() && entry.ptr in Live() && Live()[entry.ptr] == entry.Info()
      ensures outcome.Done? || outcome.SizeAssertion? || outcome.Corrupted?
      ensures outcome.Done? <==> (entry.corrupt_info ==> entry.size > 0 && Intact(mem[..], entry.ptr, entry.size))
      ensures outcome.SizeAssertion? <==> entry.corrupt_info && entry.size == 0
      ensures outcome.Corrupted? ==>
                && NearestBelow(tracker.Items(), outcome.prev, entry.ptr)
                && NearestAbove(tracker.Items(), outcome.next, entry.ptr)
    {
      if entry.corrupt_info {
        outcome := CheckCorrupt(mem, tracker.table, entry.ptr - RANGE, entry.size + TOTAL);
      } else {
        outcome := Done;
      }
    }

    /** Clears the block, hands it back to the C library and removes its entry. */
    method Release(entry: Item)
      requires Valid() && entry.ptr in Live() && Live()[entry.ptr] == entry.Info()
      requires SearchEnds(tracker.Items(), entry.ptr)
      modifies tracker, tracker.table, mem
      ensures Valid() && tracker.table == old(tracker.table)
      ensures Live() == old(Live()) - {entry.ptr} && tracker.count == old(tracker.count) - 1
      ensures tracker.mem_used == old(tracker.mem_used) - entry.size
      ensures forall a: int :: Owns(entry.ptr, entry.Info(), a) && 0 <= a < mem.Length ==> mem[a] == 0
      ensures OthersUntouched(entry.ptr)
      ensures old(AllIntact()) ==> AllIntact()
      ensures forall j :: 0 <= j < tracker.table.Length ==> tracker.table[j].active == old(tracker.Items())[j].active
    {
      if entry.corrupt_info {
        Clear(entry.ptr - RANGE, entry.size + TOTAL);
      } else {
        Clear(entry.ptr, entry.size);
      }
      assert OthersUntouched(entry.ptr) by {
        forall q, a: int | q in Live() && q != entry.ptr && Owns(q, Live()[q], a) && 0 <= a < mem.Length
          ensures mem[a] == old(mem[a])
        {
          assert !Owns(entry.ptr, Live()[entry.ptr], a);
        }
      }
      if old(AllIntact()) {
        OthersStayIntact(Live(), entry.ptr, old(mem[..]), mem[..]);
      }
      KeysAreLive(tracker.Items(), entry.ptr);
      var _, _ := tracker.Remove(entry.ptr);
    }

    /** memset(start, 0, size) */
    method Clear(start: nat, size: nat)
      requires start + size <= mem.Length
      modifies mem
      ensures forall a :: start <= a < start + size ==> mem[a] == 0
      ensures forall a :: 0 <= a < mem.Length && !(start <= a < start + size) ==> mem[a] == old(mem[a])
    {
      for i := 0 to size
        invariant forall a :: start <= a < start + i ==> mem[a] == 0
        invariant forall a :: 0 <= a < mem.Length && !(start <= a < start + i) ==> mem[a] == old(mem[a])
      {
        mem[start + i] := 0;
      }
    }
  }

  /** An empty block cannot be freed: the check asserts a positive size before it looks at the guards. */
  method FreeOfEmptyBlock(at: string) returns (outcome: Outcome)
    ensures outcome == SizeAssertion
  {
    var heap := new Heap(16);
    var ptr, _ := heap.Malloc(0, at, 4);
    KeysAreLive(heap.tracker.Items(), ptr);
    SearchEndsExactly(heap.tracker.Items(), ptr);
    outcome := heap.FreeBlock(ptr);
  }
}
