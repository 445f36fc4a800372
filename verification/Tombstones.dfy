/**
  A program that fills the hash table of mhandle.c with tombstones, using mhandle_malloc and mhandle_free
  on addresses that an allocator may return: multiples of 16.
 */
module Tombstones {
  import opened Ring
  import opened Basics
  import opened HashTable
  import opened MHandle
  import opened GuardBytes

  const BATCH: nat := 8
  const BATCHES: nat := 125       // 8 * 125 == INITIAL_SIZE
  const LIMIT: nat := 32000

  /** The k-th address that the allocator returns in batch b. */
  function Address(b: nat, k: nat): nat {
    16000 + 8 * b + (if b % 2 == 0 then 0 else 1000) + 2000 * k
  }

  /** The pointer that mhandle_malloc makes of it. */
  function Pointer(b: nat, k: nat): (p: Ptr) {
    Address(b, k) + RANGE
  }

  /** An allocator that aligns to 16 bytes, or to 8, may return these addresses. */
  lemma Aligned(b: nat, k: nat)
    requires b < BATCHES && k < BATCH
    ensures Address(b, k) % 16 == 0 && Address(b, k) + 1 + TOTAL <= LIMIT
  {
    var q := 1000 + 125 * k + if b % 2 == 0 then b / 2 else (b + 125) / 2;
    assert b == 2 * (b / 2) + b % 2;
    assert b % 2 == 1 ==> b + 125 == 2 * ((b + 125) / 2);
    assert Address(b, k) == 16 * q;
  }

  /** The pointers of a batch collide: they all have the same home slot. */
  lemma Collide(b: nat, k: nat)
    requires b < BATCHES && k < BATCH
    ensures Home(Pointer(b, k), INITIAL_SIZE) == 8 * b + 2
  {
    Remainder(16 + (if b % 2 == 0 then 0 else 1) + 2 * k, 8 * b + 2);
  }

  lemma Remainder(q: nat, r: nat)
    requires r < INITIAL_SIZE
    ensures (INITIAL_SIZE * q + r) % INITIAL_SIZE == r
  {
  }

  /** The live blocks are those of batch b from number lo up to hi. */
  ghost predicate BatchLive(m: map<Ptr, Block>, b: nat, lo: nat, hi: nat, at: string) {
    && (forall k: nat :: lo <= k < hi ==> Pointer(b, k) in m && m[Pointer(b, k)] == Block(1, at, true))
    && (forall p :: p in m ==> exists k: nat :: lo <= k < hi && p == Pointer(b, k))
  }

  /** The region of the next block of a batch is free. */
  lemma NextIsFree(m: map<Ptr, Block>, b: nat, k: nat, at: string)
    requires BatchLive(m, b, 0, k, at)
    ensures Free(m, Address(b, k), 1 + TOTAL) && Pointer(b, k) !in m
  {
    forall p, a: int | p in m && Address(b, k) <= a < Address(b, k) + 1 + TOTAL
      ensures !Owns(p, m[p], a)
    {
      var i: nat :| i < k && p == Pointer(b, i);
      assert m[p] == Block(1, at, true);
    }
  }

  /** Slots are live exactly if they are among the first k after the home slot of batch b. */
  ghost predicate FirstLive(t: seq<Item>, b: nat, k: nat) {
    |t| == INITIAL_SIZE && forall j :: 0 <= j < |t| ==> (t[j].Live() <==> Distance(8 * b + 2, j, INITIAL_SIZE) < k)
  }

  /** The next block of the batch goes to the next slot. */
  lemma NextSlot(t: seq<Item>, b: nat, k: nat, slot: int, x: Item)
    requires b < BATCHES && k < BATCH && FirstLive(t, b, k) && 0 <= slot < |t| && !t[slot].Live() && x.Live()
    requires forall j :: 0 <= j < |t| && Before(Pointer(b, k), j, slot, |t|) ==> t[j].Live()
    ensures FirstLive(t[slot := x], b, k + 1)
  {
    Collide(b, k);
    var next := Wrap(8 * b + 2 + k, INITIAL_SIZE);
    assert Distance(8 * b + 2, next, INITIAL_SIZE) == k && !t[next].Live();
    assert !Before(Pointer(b, k), next, slot, |t|);
  }

  method AllocateBatch(heap: Heap, b: nat, at: string)
    requires heap.Valid() && heap.Live() == map[] && b < BATCHES
    requires heap.tracker.table.Length == INITIAL_SIZE && heap.mem.Length == LIMIT
    modifies heap.tracker, heap.tracker.table, heap.mem
    ensures heap.Valid() && heap.AllIntact() && heap.tracker.table == old(heap.tracker.table)
    ensures BatchLive(heap.Live(), b, 0, BATCH, at)
    ensures forall j :: 0 <= j < INITIAL_SIZE && old(heap.tracker.Items())[j].active ==> heap.tracker.table[j].active
    ensures forall j :: 0 <= j < INITIAL_SIZE && Distance(8 * b + 2, j, INITIAL_SIZE) < BATCH ==> heap.tracker.table[j].active
  {
    ghost var table := heap.tracker.table;
    CountIsMapSize(heap.tracker.Items());
    NoneLive(heap.tracker.Items());
    var k := 0;
    while k < BATCH
      modifies heap.tracker, heap.tracker.table, heap.mem
      invariant k <= BATCH && heap.Valid() && heap.AllIntact() && heap.tracker.table == table
      invariant BatchLive(heap.Live(), b, 0, k, at) && heap.tracker.count == k
      invariant FirstLive(heap.tracker.Items(), b, k)
      invariant forall j :: 0 <= j < INITIAL_SIZE && old(heap.tracker.Items())[j].active ==> heap.tracker.table[j].active
    {
      AllocateNext(heap, b, k, at);
      k := k + 1;
    }
  }

  method AllocateNext(heap: Heap, b: nat, k: nat, at: string)
    requires heap.Valid() && heap.AllIntact() && b < BATCHES && k < BATCH && heap.tracker.count == k
    requires heap.tracker.table.Length == INITIAL_SIZE && heap.mem.Length == LIMIT
    requires BatchLive(heap.Live(), b, 0, k, at) && FirstLive(heap.tracker.Items(), b, k)
    modifies heap.tracker, heap.tracker.table, heap.mem
    ensures heap.Valid() && heap.AllIntact() && heap.tracker.table == old(heap.tracker.table)
    ensures BatchLive(heap.Live(), b, 0, k + 1, at) && heap.tracker.count == k + 1
    ensures FirstLive(heap.tracker.Items(), b, k + 1)
    ensures forall j :: 0 <= j < INITIAL_SIZE && old(heap.tracker.Items())[j].active ==> heap.tracker.table[j].active
  {
    Aligned(b, k);
    ghost var m, t := heap.Live(), heap.tracker.Items();
    NextIsFree(m, b, k, at);
    ghost var slot;
    var ptr: Ptr;
    ptr, slot := heap.Malloc(1, at, Address(b, k));
    NextSlot(t, b, k, slot, heap.tracker.table[slot]);
    BatchGrows(m, b, k, at);
  }

  lemma BatchGrows(m: map<Ptr, Block>, b: nat, k: nat, at: string)
    requires BatchLive(m, b, 0, k, at)
    ensures BatchLive(m[Pointer(b, k) := Block(1, at, true)], b, 0, k + 1, at)
  {
  }

  lemma BatchShrinks(m: map<Ptr, Block>, b: nat, k: nat, at: string)
    requires BatchLive(m, b, k, BATCH, at)
    ensures BatchLive(m - {Pointer(b, k)}, b, k + 1, BATCH, at)
  {
  }

  method FreeBatch(heap: Heap, b: nat, at: string)
    requires heap.Valid() && heap.AllIntact() && BatchLive(heap.Live(), b, 0, BATCH, at)
    modifies heap.tracker, heap.tracker.table, heap.mem
    ensures heap.Valid() && heap.Live() == map[] && heap.tracker.table == old(heap.tracker.table)
    ensures forall j :: 0 <= j < heap.tracker.table.Length ==> heap.tracker.table[j].active == old(heap.tracker.Items())[j].active
  {
    ghost var table := heap.tracker.table;
    var k := 0;
    while k < BATCH
      modifies heap.tracker, heap.tracker.table, heap.mem
      invariant k <= BATCH && heap.Valid() && heap.AllIntact() && heap.tracker.table == table
      invariant BatchLive(heap.Live(), b, k, BATCH, at)
      invariant forall j :: 0 <= j < table.Length ==> table[j].active == old(heap.tracker.Items())[j].active
    {
      ghost var m := heap.Live();
      KeysAreLive(heap.tracker.Items(), Pointer(b, k));
      SearchEndsExactly(heap.tracker.Items(), Pointer(b, k));
      var outcome := heap.FreeBlock(Pointer(b, k));
      assert outcome.Done?;
      BatchShrinks(m, b, k, at);
      k := k + 1;
    }
  }

  /**
    Starting from an empty heap, a program that never has more than eight blocks can leave a table with
    nothing live and no never-used slot: tombstones are not counted in the load test. From then on every
    lookup of a pointer that is not live, and so every free of an invalid pointer, runs forever.
   */
  method FillWithTombstones(at: string) returns (heap: Heap)
    ensures fresh(heap) && heap.Valid() && heap.Live() == map[] && heap.tracker.count == 0
    ensures forall p: Ptr :: !SearchEnds(heap.tracker.Items(), p)
  {
    heap := new Heap(LIMIT);
    ghost var table := heap.tracker.table;
    var b := 0;
    while b < BATCHES
      modifies heap.tracker, heap.tracker.table, heap.mem
      invariant b <= BATCHES && heap.Valid() && heap.Live() == map[] && heap.tracker.table == table
      invariant forall j :: 0 <= j < INITIAL_SIZE && Distance(2, j, INITIAL_SIZE) < 8 * b ==> table[j].active
    {
      AllocateBatch(heap, b, at);
      FreeBatch(heap, b, at);
      b := b + 1;
    }
    CountIsMapSize(heap.tracker.Items());
    NoneLive(heap.tracker.Items());
    forall p: Ptr
      ensures !SearchEnds(heap.tracker.Items(), p)
    {
      SearchEndsExactly(heap.tracker.Items(), p);
    }
  }
}
