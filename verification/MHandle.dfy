/**
  The allocation tracker of mhandle.c: the hash table of live pointers, its growth and its running
  totals.
 */
module MHandle {
  import opened Ring
  import opened HashTable

  const INITIAL_SIZE := 1000      // MHANDLE_HASH_TABLE_SIZE

  /** The reports are those of the live slots, one for each and in the order of the table. */
  ghost predicate ReportsLive(t: seq<Item>, slots: seq<int>, reports: seq<string>) {
    && |slots| == |reports|
    && (forall k :: 0 <= k < |slots| ==> 0 <= slots[k] < |t| && t[slots[k]].Live() && reports[k] == t[slots[k]].at)
    && (forall j, k :: 0 <= j < k < |slots| ==> slots[j] < slots[k])
    && (forall i :: 0 <= i < |t| && t[i].Live() ==> i in slots)
  }

  /** The static variables mhandle_hash_table, mhandle_hash_table_count and mhandle_mem_used. */
  class Tracker {
    var table: array<Item>
    var count: int
    var mem_used: int

    ghost function Items(): seq<Item>
      reads `table, table
    {
      table[..]
    }

    /** What holds between two calls of the public functions. */
    ghost predicate Valid()
      reads this, table
    {
      && 2 <= table.Length && WellFormed(Items())
      && count == LiveCount(Items()) <= table.Length / 2
      && mem_used == LiveBytes(Items())
    }

    /** What holds at every call of insert: during a rehash the totals still include what has not moved yet. */
    ghost predicate Consistent()
      reads this, table
    {
      && 2 <= table.Length && WellFormed(Items())
      && LiveCount(Items()) <= count <= table.Length / 2
    }

    /** mhandle_init */
    constructor ()
      ensures Valid() && fresh(table) && table.Length == INITIAL_SIZE
      ensures Blocks(Items()) == map[] && count == 0
      ensures forall i :: 0 <= i < table.Length ==> !table[i].active
    {
      table := new Item[INITIAL_SIZE](_ => UNUSED);
      count, mem_used := 0, 0;
      new;
      TotalsOfUnused(Items());
      CountIsMapSize(Items());
    }

    /** The probing loop of mhandle_hash_table_insert. */
    method FindFree(ptr: Ptr) returns (index: int)
      requires 0 < table.Length && LiveCount(Items()) < table.Length
      ensures 0 <= index < table.Length && !table[index].Live() && ProbedTo(Items(), ptr, index)
      ensures forall j :: 0 <= j < table.Length && Before(ptr, j, index, table.Length) ==> table[j].Live()
    {
      var n := table.Length;
      ghost var free := RoomLeft(Items());
      index := Home(ptr, n);
      while table[index].active && !table[index].removed
        invariant 0 <= index < n
        invariant forall j :: 0 <= j < n && Before(ptr, j, index, n) ==> table[j].Live()
        decreases n - Distance(Home(ptr, n), index, n)
      {
        assert !Before(ptr, free, index, n);
        index := Wrap(index + 1, n);
      }
      PathIsProbed(Items(), ptr, index);
    }

    /**
      mhandle_hash_table_insert. `slot` is where the item goes. Growth never happens inside a
      growth: that is what makes the two functions terminate.
     */
    method Insert(ptr: Ptr, size: nat, at: string, corrupt_info: bool) returns (ghost slot: int)
      requires Consistent() && ptr !in Blocks(Items())
      modifies this, table
      ensures Consistent()
      ensures count == old(count) + 1 && mem_used == old(mem_used) + size
      ensures LiveCount(Items()) == old(LiveCount(Items())) + 1
      ensures LiveBytes(Items()) == old(LiveBytes(Items())) + size
      ensures Blocks(Items()) == old(Blocks(Items()))[ptr := Block(size, at, corrupt_info)]
      ensures 0 <= slot < table.Length && table[slot] == Item(ptr, size, at, false, true, corrupt_info)
      ensures old(count) < old(table.Length) / 2 ==>
                && table == old(table) && !old(Items())[slot].Live()
                && Items() == old(Items())[slot := table[slot]] && ProbedTo(old(Items()), ptr, slot)
                && forall j :: 0 <= j < |old(Items())| && Before(ptr, j, slot, table.Length) ==> old(Items())[j].Live()
      ensures old(count) >= old(table.Length) / 2 ==>
                && fresh(table) && table.Length == 2 * old(table.Length)
                && forall j :: 0 <= j < table.Length && table[j].active ==> table[j].Live()
      decreases if count >= table.Length / 2 then 2 else 0, 0
    {
      if count >= table.Length / 2 {
        Grow();
      }
      ghost var t := Items();
      KeysAreLive(t, ptr);
      var index := FindFree(ptr);
      var item := Item(ptr, size, at, false, true, corrupt_info);
      WellFormedAfterInsert(t, index, item);
      BlocksAfterInsert(t, index, item);
      TotalsOfUpdate(t, index, item);
      table[index] := item;
      mem_used := mem_used + size;
      count := count + 1;
      slot := index;
      assert Items() == t[index := item];
    }

    /** One entry of a rehash: its share leaves the totals and comes back with the insertion. */
    method Move(item: Item)
      requires 2 <= table.Length && WellFormed(Items())
      requires LiveCount(Items()) < count < table.Length / 2
      requires item.Live() && item.ptr !in Blocks(Items())
      modifies this, table
      ensures Consistent() && table == old(table) && count == old(count) && mem_used == old(mem_used)
      ensures Blocks(Items()) == old(Blocks(Items()))[item.ptr := item.Info()]
      ensures LiveCount(Items()) == old(LiveCount(Items())) + 1
      ensures LiveBytes(Items()) == old(LiveBytes(Items())) + item.size
      ensures (forall j :: 0 <= j < table.Length && old(Items())[j].active ==> old(Items())[j].Live()) ==>
                forall j :: 0 <= j < table.Length && table[j].active ==> table[j].Live()
      decreases 0, 1
    {
      count := count - 1;
      mem_used := mem_used - item.size;
      var _ := Insert(item.ptr, item.size, item.at, item.corrupt_info);
    }

    /** mhandle_hash_table_grow: a table of twice the size with the same live entries and no tombstones. */
    method Grow()
      requires Consistent()
      modifies this, table
      ensures Consistent() && fresh(table) && table.Length == 2 * old(table.Length)
      ensures count == old(count) && mem_used == old(mem_used)
      ensures Blocks(Items()) == old(Blocks(Items()))
      ensures LiveCount(Items()) == old(LiveCount(Items())) && LiveBytes(Items()) == old(LiveBytes(Items()))
      ensures forall j :: 0 <= j < table.Length && table[j].active ==> table[j].Live()
      decreases 1, 0
    {
      var old_size, old_ht := table.Length, table;
      ghost var t := Items();
      table := new Item[table.Length * 2](_ => UNUSED);
      TotalsOfUnused(Items());
      CountIsMapSize(Items());
      var i := 0;
      while i < old_size
        modifies this, table
        invariant 0 <= i <= old_size && fresh(table) && table.Length == 2 * old_size
        invariant Consistent() && count == old(count) && mem_used == old(mem_used)
        invariant Blocks(Items()) == Blocks(t[..i])
        invariant LiveCount(Items()) == LiveCount(t[..i]) && LiveBytes(Items()) == LiveBytes(t[..i])
        invariant forall j :: 0 <= j < table.Length && table[j].active ==> table[j].Live()
      {
        NextEntry(t, i);
        if old_ht[i].active && !old_ht[i].removed {
          Move(old_ht[i]);
        }
        i := i + 1;
      }
      assert t[..old_size] == t;
    }

    /** mhandle_hash_table_get. It is called only where its loop is known to end. */
    method Get(ptr: Ptr) returns (item: int)
      requires 2 <= table.Length && WellFormed(Items())
      requires SearchEnds(Items(), ptr)
      ensures item >= 0 ==> item < table.Length && table[item].Holds(ptr) && IsLive(Items(), ptr)
      ensures item < 0 ==> !IsLive(Items(), ptr)
    {
      var n := table.Length;
      ghost var stop := StoppingSlot(Items(), ptr);
      var idx := Home(ptr, n);
      while table[idx].ptr != ptr || !table[idx].active || table[idx].removed
        invariant 0 <= idx < n
        invariant forall j :: 0 <= j < n && Before(ptr, j, idx, n) ==> !Stops(table[j], ptr)
        decreases n - Distance(Home(ptr, n), idx, n)
      {
        if !table[idx].active {
          AbsentIfPathEnds(Items(), ptr, idx);
          return -1;
        }
        assert !Before(ptr, stop, idx, n);
        idx := Wrap(idx + 1, n);
      }
      return idx;
    }

    /** mhandle_hash_table_remove; None is the abort on an invalid pointer. */
    method Remove(ptr: Ptr) returns (ok: bool, size: nat)
      requires Valid() && SearchEnds(Items(), ptr)
      modifies this, table
      ensures Valid() && table == old(table)
      ensures ok <==> old(IsLive(Items(), ptr))
      ensures !ok ==> size == 0 && Items() == old(Items()) && count == old(count) && mem_used == old(mem_used)
      ensures ok ==> && Blocks(Items()) == old(Blocks(Items())) - {ptr}
                     && ptr in old(Blocks(Items())) && size == old(Blocks(Items()))[ptr].size
                     && count == old(count) - 1 && mem_used == old(mem_used) - size
      ensures forall j :: 0 <= j < table.Length ==> table[j].active == old(Items())[j].active
    {
      var item := Get(ptr);
      if item < 0 {
        return false, 0;
      }
      ghost var t := Items();
      ValueOfSlot(t, item);
      WellFormedAfterRemove(t, item);
      BlocksAfterRemove(t, item);
      TotalsOfUpdate(t, item, t[item].(removed := true));
      table[item] := table[item].(removed := true);
      mem_used := mem_used - table[item].size;
      count := count - 1;
      assert Items() == t[item := t[item].(removed := true)];
      return true, table[item].size;
    }

    /** __mhandle_done: reports what was not freed, and the assertion that no bytes are left when nothing is. */
    method Finish() returns (leaks: seq<string>, assertion: bool, ghost slots: seq<int>)
      requires Valid()
      ensures assertion
      ensures |leaks| == count == |Blocks(Items())|
      ensures ReportsLive(Items(), slots, leaks)
    {
      leaks, slots := [], [];
      var i := 0;
      while i < table.Length
        invariant 0 <= i <= table.Length && |leaks| == LiveCount(Items()[..i])
        invariant ReportsLive(Items()[..i], slots, leaks)
      {
        NextEntry(Items(), i);
        assert Items()[..i + 1] == Items()[..i] + [table[i]];
        if table[i].active && !table[i].removed {
          leaks, slots := leaks + [table[i].at], slots + [i];
        }
        i := i + 1;
      }
      assert Items()[..i] == Items();
      CountIsMapSize(Items());
      if count == 0 {
        NoneLive(Items());
      }
      assertion := count != 0 || mem_used == 0;
    }
  }
}
