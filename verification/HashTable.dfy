/**
  The open-addressing table of mhandle.c as a value: what its slots mean, and what the probe
  sequence of a pointer guarantees. Positions on a probe path are compared by their Distance
  from the home slot, so that every statement ranges over the slots themselves.
 */
module HashTable {
  import opened Ring

  type Ptr = nat

  /** struct mhandle_item_t */
  datatype Item = Item(ptr: Ptr, size: nat, at: string, removed: bool, active: bool, corrupt_info: bool) {
    predicate Live() {
      active && !removed
    }

    predicate Holds(p: Ptr) {
      ptr == p && Live()
    }

    ghost function Info(): Block {
      Block(size, at, corrupt_info)
    }
  }

  /** What the table records about a live pointer. */
  datatype Block = Block(size: nat, at: string, corrupt_info: bool)

  /** A slot as calloc leaves it. */
  const UNUSED := Item(0, 0, "", false, false, false)

  function Home(p: Ptr, n: int): (h: int)
    requires 0 < n
    ensures 0 <= h < n
  {
    p % n
  }

  /** Slot j is probed before slot i by a search for p. */
  ghost predicate Before(p: Ptr, j: int, i: int, n: int)
    requires 0 < n
  {
    Distance(Home(p, n), j, n) < Distance(Home(p, n), i, n)
  }

  ghost predicate Unique(t: seq<Item>) {
    forall i, j :: 0 <= i < j < |t| && t[i].Live() && t[j].Live() ==> t[i].ptr != t[j].ptr
  }

  /** No search for the pointer in slot i meets a never-used slot before it gets to i. */
  ghost predicate Reachable(t: seq<Item>, i: int)
    requires 0 <= i < |t|
  {
    forall j :: 0 <= j < |t| && Before(t[i].ptr, j, i, |t|) ==> t[j].active
  }

  ghost predicate WellFormed(t: seq<Item>) {
    && Unique(t)
    && forall i :: 0 <= i < |t| && t[i].Live() ==> Reachable(t, i)
  }

  ghost predicate IsLive(t: seq<Item>, p: Ptr) {
    exists i :: 0 <= i < |t| && t[i].Holds(p)
  }

  /** The finite map the table stands for. */
  ghost function Blocks(t: seq<Item>): map<Ptr, Block> {
    if t == [] then map[]
    else
      var last := t[|t| - 1];
      if last.Live() then Blocks(t[..|t| - 1])[last.ptr := last.Info()] else Blocks(t[..|t| - 1])
  }

  ghost function LiveCount(t: seq<Item>): nat {
    if t == [] then 0 else LiveCount(t[..|t| - 1]) + (if t[|t| - 1].Live() then 1 else 0)
  }

  ghost function LiveBytes(t: seq<Item>): nat {
    if t == [] then 0 else LiveBytes(t[..|t| - 1]) + (if t[|t| - 1].Live() then t[|t| - 1].size else 0)
  }

  lemma {:induction false} TotalsOfUpdate(t: seq<Item>, i: int, x: Item)
    requires 0 <= i < |t|
    ensures LiveCount(t[i := x]) ==
            LiveCount(t) - (if t[i].Live() then 1 else 0) + (if x.Live() then 1 else 0)
    ensures LiveBytes(t[i := x]) ==
            LiveBytes(t) - (if t[i].Live() then t[i].size else 0) + (if x.Live() then x.size else 0)
  {
    var n := |t| - 1;
    if i == n {
      assert t[i := x][..n] == t[..n];
    } else {
      assert t[i := x][..n] == t[..n][i := x];
      TotalsOfUpdate(t[..n], i, x);
    }
  }

  lemma {:induction false} TotalsOfUnused(t: seq<Item>)
    requires forall i :: 0 <= i < |t| ==> !t[i].Live()
    ensures LiveCount(t) == 0 && LiveBytes(t) == 0
  {
    if t != [] {
      TotalsOfUnused(t[..|t| - 1]);
    }
  }

  /** A prefix never counts more than the whole, and a live entry after it is not in it. */
  lemma {:induction false} CountOfPrefix(t: seq<Item>, i: int)
    requires 0 <= i <= |t|
    ensures LiveCount(t[..i]) <= LiveCount(t)
    ensures i < |t| && t[i].Live() ==> LiveCount(t[..i]) < LiveCount(t)
  {
    if i < |t| {
      var front := t[..|t| - 1];
      assert front[..i] == t[..i];
      CountOfPrefix(front, i);
    } else {
      assert t[..i] == t;
    }
  }

  /** A table with fewer live entries than slots has a slot to put one more in. */
  lemma {:induction false} RoomLeft(t: seq<Item>) returns (i: int)
    requires LiveCount(t) < |t|
    ensures 0 <= i < |t| && !t[i].Live()
  {
    i := |t| - 1;
    if t[i].Live() {
      i := RoomLeft(t[..|t| - 1]);
    }
  }

  /** A table that counts no live entry has none. */
  lemma {:induction false} NoneLive(t: seq<Item>)
    requires LiveCount(t) == 0
    ensures forall i :: 0 <= i < |t| ==> !t[i].Live()
    ensures LiveBytes(t) == 0
  {
    if t != [] {
      NoneLive(t[..|t| - 1]);
      assert forall i :: 0 <= i < |t| - 1 ==> t[i] == t[..|t| - 1][i];
    }
  }

  /** The keys of the map are the live pointers. */
  lemma {:induction false} KeysAreLive(t: seq<Item>, p: Ptr)
    ensures p in Blocks(t) <==> IsLive(t, p)
  {
    if t != [] {
      var n := |t| - 1;
      KeysAreLive(t[..n], p);
      if i :| 0 <= i < n && t[..n][i].Holds(p) {
        assert t[i].Holds(p);
      }
      if i :| 0 <= i < n && t[i].Holds(p) {
        assert t[..n][i].Holds(p);
      }
      if t[n].Holds(p) {
        assert IsLive(t, p);
      }
    }
  }

  /** The value of a live pointer is what its slot records. */
  lemma {:induction false} ValueOfSlot(t: seq<Item>, i: int)
    requires Unique(t) && 0 <= i < |t| && t[i].Live()
    ensures t[i].ptr in Blocks(t) && Blocks(t)[t[i].ptr] == t[i].Info()
  {
    var n := |t| - 1;
    if i < n {
      ValueOfSlot(t[..n], i);
    }
  }

  /** Storing a new pointer in a slot that is not live adds exactly that pointer to the map. */
  lemma {:induction false} BlocksAfterInsert(t: seq<Item>, i: int, x: Item)
    requires 0 <= i < |t| && !t[i].Live() && x.Live() && !IsLive(t, x.ptr)
    ensures Blocks(t[i := x]) == Blocks(t)[x.ptr := x.Info()]
  {
    var n := |t| - 1;
    if i == n {
      assert t[i := x][..n] == t[..n];
    } else {
      assert t[i := x][..n] == t[..n][i := x];
      assert t[n].ptr == x.ptr ==> !t[n].Holds(x.ptr);
      assert forall j :: 0 <= j < n ==> t[..n][j] == t[j] && !t[j].Holds(x.ptr);
      BlocksAfterInsert(t[..n], i, x);
    }
  }

  /** Marking a live slot as removed takes exactly its pointer out of the map. */
  lemma {:induction false} BlocksAfterRemove(t: seq<Item>, i: int)
    requires Unique(t) && 0 <= i < |t| && t[i].Live()
    ensures Blocks(t[i := t[i].(removed := true)]) == Blocks(t) - {t[i].ptr}
  {
    var n, x := |t| - 1, t[i].(removed := true);
    if i == n {
      assert t[i := x][..n] == t[..n];
      KeysAreLive(t[..n], t[i].ptr);
    } else {
      assert t[i := x][..n] == t[..n][i := x];
      BlocksAfterRemove(t[..n], i);
    }
  }

  /** What the next entry adds to the map and the totals of the entries before it. */
  lemma NextEntry(t: seq<Item>, i: int)
    requires Unique(t) && 0 <= i < |t|
    ensures t[i].Live() ==> t[i].ptr !in Blocks(t[..i]) && LiveCount(t[..i]) < LiveCount(t)
    ensures Blocks(t[..i + 1]) == if t[i].Live() then Blocks(t[..i])[t[i].ptr := t[i].Info()] else Blocks(t[..i])
    ensures LiveCount(t[..i + 1]) == LiveCount(t[..i]) + (if t[i].Live() then 1 else 0)
    ensures LiveBytes(t[..i + 1]) == LiveBytes(t[..i]) + (if t[i].Live() then t[i].size else 0)
  {
    assert t[..i + 1][..i] == t[..i];
    KeysAreLive(t[..i], t[i].ptr);
    CountOfPrefix(t, i);
  }

  /** The number of live slots is the size of the map. */
  lemma {:induction false} CountIsMapSize(t: seq<Item>)
    requires Unique(t)
    ensures LiveCount(t) == |Blocks(t)|
  {
    if t != [] {
      CountIsMapSize(t[..|t| - 1]);
      KeysAreLive(t[..|t| - 1], t[|t| - 1].ptr);
    }
  }

  /** Filling the first slot on p's path that is not live keeps every pointer reachable. */
  lemma WellFormedAfterInsert(t: seq<Item>, i: int, x: Item)
    requires WellFormed(t) && 0 <= i < |t| && !t[i].Live() && x.Live() && !IsLive(t, x.ptr)
    requires forall j :: 0 <= j < |t| && Before(x.ptr, j, i, |t|) ==> t[j].Live()
    ensures WellFormed(t[i := x])
  {
    var u := t[i := x];
    forall j | 0 <= j < |t| && t[j].Live()
      ensures t[j].ptr != x.ptr
    {
      assert t[j].Holds(t[j].ptr);
    }
    forall k | 0 <= k < |u| && u[k].Live()
      ensures Reachable(u, k)
    {
      if k != i {
        assert Reachable(t, k);
      }
    }
  }

  /** A tombstone keeps its slot active, so removal breaks no probe path. */
  lemma WellFormedAfterRemove(t: seq<Item>, i: int)
    requires WellFormed(t) && 0 <= i < |t| && t[i].Live()
    ensures WellFormed(t[i := t[i].(removed := true)])
  {
    var u := t[i := t[i].(removed := true)];
    forall k | 0 <= k < |u| && u[k].Live()
      ensures Reachable(u, k)
    {
      assert Reachable(t, k);
    }
  }

  /** A search for p stops at this slot. */
  predicate Stops(x: Item, p: Ptr) {
    x.Holds(p) || !x.active
  }

  /** The slot visited after k steps of the search loop. */
  function Probe(p: Ptr, k: nat, n: int): (i: int)
    requires 0 < n
    ensures 0 <= i < n
  {
    if k == 0 then Home(p, n) else Wrap(Probe(p, k - 1, n) + 1, n)
  }

  lemma MultipleAtLeast(d: int, n: int)
    requires d >= 1 && n >= 1
    ensures d * n >= n
  {
    assert d * n == (d - 1) * n + n;
  }

  /** Division with remainder is unique. */
  lemma UniqueRemainder(q: int, r: int, q': int, r': int, n: int)
    requires 0 <= r < n && 0 <= r' < n && q * n + r == q' * n + r'
    ensures r == r'
  {
    if q > q' {
      MultipleAtLeast(q - q', n);
    } else if q < q' {
      MultipleAtLeast(q' - q, n);
    }
  }

  lemma RemainderOf(q: int, r: int, n: int)
    requires 0 <= r < n
    ensures (q * n + r) % n == r
  {
    var x := q * n + r;
    UniqueRemainder(q, r, x / n, x % n, n);
  }

  /** The e-th slot on the probe path of p: e steps of `index = (index + 1) % size` after `p % size`. */
  lemma PathPlace(p: Ptr, e: int, n: int)
    requires 0 <= e < n
    ensures 0 <= (p + e) % n < n && (p + e) % n == Slot(Home(p, n), e, n) && Distance(Home(p, n), (p + e) % n, n) == e
  {
    var h, q := p % n, p / n;
    assert p == q * n + h;
    if h + e < n {
      RemainderOf(q, h + e, n);
    } else {
      assert (q + 1) * n == q * n + n;
      RemainderOf(q + 1, h + e - n, n);
    }
  }

  lemma {:induction false} ProbeIsSlot(p: Ptr, k: nat, n: int)
    requires 0 < n && k < n
    ensures Probe(p, k, n) == Slot(Home(p, n), k, n)
  {
    if k > 0 {
      ProbeIsSlot(p, k - 1, n);
      SlotNeighbours(Home(p, n), k - 1, n);
    }
  }

  /** The k-th slot that the loops visit is `(p + k) % size`. */
  lemma ProbeExactly(p: Ptr, k: nat, n: int)
    requires 0 < n && k < n
    ensures Probe(p, k, n) == (p + k) % n && Distance(Home(p, n), Probe(p, k, n), n) == k
  {
    ProbeIsSlot(p, k, n);
    PathPlace(p, k, n);
  }

  /** Slot i is where linear probing from p ends: all slots before it on the path are live. */
  ghost predicate ProbedTo(t: seq<Item>, p: Ptr, i: int)
    requires t != []
  {
    exists d: nat :: d < |t| && i == Probe(p, d, |t|) && forall e: nat :: e < d ==> t[Probe(p, e, |t|)].Live()
  }

  lemma PathIsProbed(t: seq<Item>, p: Ptr, i: int)
    requires 0 <= i < |t| && forall j :: 0 <= j < |t| && Before(p, j, i, |t|) ==> t[j].Live()
    ensures ProbedTo(t, p, i)
  {
    var d: nat := Distance(Home(p, |t|), i, |t|);
    ProbeIsSlot(p, d, |t|);
    forall e: nat | e < d
      ensures t[Probe(p, e, |t|)].Live()
    {
      ProbeExactly(p, e, |t|);
    }
  }

  /** The search for p leaves its loop after finitely many steps. */
  ghost predicate SearchEnds(t: seq<Item>, p: Ptr)
    requires t != []
  {
    exists k: nat :: Stops(t[Probe(p, k, |t|)], p)
  }

  /**
    The loop of mhandle_hash_table_get has no bound of its own: it ends if and only if the pointer
    is live or some slot has never been used. Tombstones alone do not stop it.
   */
  lemma SearchEndsExactly(t: seq<Item>, p: Ptr)
    requires t != []
    ensures SearchEnds(t, p) <==> IsLive(t, p) || exists i :: 0 <= i < |t| && !t[i].active
  {
    if i :| 0 <= i < |t| && Stops(t[i], p) {
      var k := Distance(Home(p, |t|), i, |t|);
      ProbeIsSlot(p, k, |t|);
      assert Stops(t[Probe(p, k, |t|)], p);
    }
    if IsLive(t, p) {
      var i :| 0 <= i < |t| && t[i].Holds(p);
      assert Stops(t[i], p);
    }
    if i :| 0 <= i < |t| && !t[i].active {
      assert Stops(t[i], p);
    }
    if SearchEnds(t, p) {
      var k: nat :| Stops(t[Probe(p, k, |t|)], p);
      var i := Probe(p, k, |t|);
      assert t[i].Holds(p) || !t[i].active;
    }
  }

  lemma StoppingSlot(t: seq<Item>, p: Ptr) returns (i: int)
    requires t != [] && SearchEnds(t, p)
    ensures 0 <= i < |t| && Stops(t[i], p)
  {
    var k: nat :| Stops(t[Probe(p, k, |t|)], p);
    i := Probe(p, k, |t|);
  }

  /** A search that meets a never-used slot before finding p may conclude that p is not live. */
  lemma AbsentIfPathEnds(t: seq<Item>, p: Ptr, i: int)
    requires WellFormed(t) && 0 <= i < |t| && !t[i].active
    requires forall j :: 0 <= j < |t| && Before(p, j, i, |t|) ==> !t[j].Holds(p)
    ensures !IsLive(t, p)
  {
    forall j | 0 <= j < |t|
      ensures !t[j].Holds(p)
    {
      assert t[j].Live() ==> Reachable(t, j);
      assert i == j || Before(p, i, j, |t|) || Before(p, j, i, |t|);
    }
  }
}
