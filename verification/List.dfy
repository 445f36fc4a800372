/**
  Comparison functions in the style of qsort: the sign of the result is the answer.
 */
module Ordering {

  /** The comparator behaves as a total preorder on the elements of m. */
  ghost predicate TotalPreorder<T>(comp: (T, T) -> int, m: multiset<T>) {
    && (forall a, b :: a in m && b in m ==> (comp(a, b) < 0 <==> comp(b, a) > 0))
    && (forall a, b, c :: a in m && b in m && c in m && comp(a, b) <= 0 && comp(b, c) <= 0 ==> comp(a, c) <= 0)
  }

  ghost predicate SortedBy<T>(comp: (T, T) -> int, s: seq<T>) {
    forall i, j :: 0 <= i < j < |s| ==> comp(s[i], s[j]) <= 0
  }

  ghost predicate SortedRange<T>(comp: (T, T) -> int, s: seq<T>, lo: int, hi: int) {
    && 0 <= lo && hi < |s|
    && forall i, j :: lo <= i < j <= hi ==> comp(s[i], s[j]) <= 0
  }

  ghost predicate AllAtMost<T>(comp: (T, T) -> int, s: seq<T>, v: T) {
    forall k :: 0 <= k < |s| ==> comp(s[k], v) <= 0
  }

  ghost predicate AllAtLeast<T>(comp: (T, T) -> int, s: seq<T>, v: T) {
    forall k :: 0 <= k < |s| ==> comp(s[k], v) >= 0
  }

  /** A bound on the elements of a sequence survives any rearrangement of it. */
  lemma BoundsSurvivePermutation<T>(comp: (T, T) -> int, s: seq<T>, t: seq<T>, v: T)
    requires multiset(s) == multiset(t)
    ensures AllAtMost(comp, s, v) ==> AllAtMost(comp, t, v)
    ensures AllAtLeast(comp, s, v) ==> AllAtLeast(comp, t, v)
  {
    forall k | 0 <= k < |t|
      ensures t[k] in s
    {
      assert t[k] in multiset(t);
    }
  }

  /** t is a rearrangement of s that leaves everything outside [lo, hi] where it was. */
  ghost predicate RearrangedWithin<T>(s: seq<T>, t: seq<T>, lo: int, hi: int) {
    && |s| == |t| && multiset(s) == multiset(t)
    && forall k :: 0 <= k < |s| && !(lo <= k <= hi) ==> t[k] == s[k]
  }

  /** Everything in [lo, i) is at most v and everything in (j, hi] is at least v. */
  ghost predicate Parted<T>(comp: (T, T) -> int, s: seq<T>, lo: int, hi: int, i: int, j: int, v: T) {
    && 0 <= lo && hi < |s| && i <= hi + 1 && lo - 1 <= j
    && (forall k :: lo <= k < i ==> comp(s[k], v) <= 0)
    && (forall k :: j < k <= hi ==> comp(s[k], v) >= 0)
  }

  /** Exchanging two misplaced elements extends both sides of a partition. */
  lemma PartedStep<T>(comp: (T, T) -> int, s: seq<T>, lo: int, hi: int, i: int, j: int, v: T)
    requires Parted(comp, s, lo, hi, i, j, v) && lo <= i <= j <= hi
    requires comp(s[i], v) >= 0 && comp(s[j], v) <= 0
    ensures Parted(comp, s[i := s[j]][j := s[i]], lo, hi, i + 1, j - 1, v)
    ensures RearrangedWithin(s, s[i := s[j]][j := s[i]], lo, hi)
  {
  }

  lemma Cancel<T>(a: multiset<T>, x: multiset<T>, y: multiset<T>, b: multiset<T>)
    requires a + x + b == a + y + b
    ensures x == y
  {
    assert x == a + x + b - a - b;
    assert y == a + y + b - a - b;
  }

  /** What RearrangedWithin says about the range itself. */
  lemma RangeIsPermuted<T>(s: seq<T>, t: seq<T>, lo: int, hi: int)
    requires RearrangedWithin(s, t, lo, hi) && 0 <= lo <= hi + 1 <= |s|
    ensures multiset(s[lo..hi + 1]) == multiset(t[lo..hi + 1])
  {
    var a, b := s[..lo], s[hi + 1..];
    assert s == a + s[lo..hi + 1] + b;
    assert t == a + t[lo..hi + 1] + b;
    Cancel(multiset(a), multiset(s[lo..hi + 1]), multiset(t[lo..hi + 1]), multiset(b));
  }

  lemma RearrangeTwice<T>(s: seq<T>, t: seq<T>, u: seq<T>, lo: int, hi: int, lo': int, hi': int)
    requires RearrangedWithin(s, t, lo, hi) && RearrangedWithin(t, u, lo', hi')
    requires lo <= lo' && hi' <= hi
    ensures RearrangedWithin(s, u, lo, hi)
  {
  }

  /** Rearranging one side of a partition keeps it a partition. */
  lemma PartedSurvives<T>(comp: (T, T) -> int, s: seq<T>, t: seq<T>, lo: int, hi: int, i: int, j: int, v: T)
    requires Parted(comp, s, lo, hi, i, j, v) && j < i
    requires RearrangedWithin(s, t, lo, j) || RearrangedWithin(s, t, i, hi)
    ensures Parted(comp, t, lo, hi, i, j, v)
  {
    if RearrangedWithin(s, t, lo, j) {
      RangeIsPermuted(s, t, lo, j);
      BoundsSurvivePermutation(comp, s[lo..j + 1], t[lo..j + 1], v);
      assert forall k :: lo <= k <= j ==> s[k] == s[lo..j + 1][k - lo] && t[k] == t[lo..j + 1][k - lo];
    } else {
      RangeIsPermuted(s, t, i, hi);
      BoundsSurvivePermutation(comp, s[i..hi + 1], t[i..hi + 1], v);
      assert forall k :: i <= k <= hi ==> s[k] == s[i..hi + 1][k - i] && t[k] == t[i..hi + 1][k - i];
    }
  }

  lemma Transitive<T>(comp: (T, T) -> int, m: multiset<T>, a: T, b: T, c: T)
    requires TotalPreorder(comp, m) && a in m && b in m && c in m
    requires comp(a, b) <= 0 && comp(c, b) >= 0
    ensures comp(a, c) <= 0
  {
  }

  /** A partition whose two sides are sorted is sorted. */
  lemma SortedFromParts<T>(comp: (T, T) -> int, s: seq<T>, lo: int, hi: int, i: int, j: int, v: T)
    requires TotalPreorder(comp, multiset(s)) && v in multiset(s)
    requires Parted(comp, s, lo, hi, i, j, v) && j < i
    requires SortedRange(comp, s, lo, j) && SortedRange(comp, s, i, hi)
    ensures SortedRange(comp, s, lo, hi)
  {
    forall a, b | lo <= a < b <= hi
      ensures comp(s[a], s[b]) <= 0
    {
      if a < i && j < b {
        assert s[a] in multiset(s) && s[b] in multiset(s);
        Transitive(comp, multiset(s), s[a], v, s[b]);
      }
    }
  }

  /** The two recursive calls of a quicksort on the sides of a partition sort the whole range. */
  lemma AfterBothSides<T>(comp: (T, T) -> int, s0: seq<T>, s1: seq<T>, s2: seq<T>, s3: seq<T>,
                          lo: int, hi: int, i: int, j: int, v: T)
    requires TotalPreorder(comp, multiset(s0)) && v in multiset(s0)
    requires RearrangedWithin(s0, s1, lo, hi) && Parted(comp, s1, lo, hi, i, j, v) && lo <= i && j < i && j <= hi
    requires if lo < j then RearrangedWithin(s1, s2, lo, j) && SortedRange(comp, s2, lo, j) else s2 == s1
    requires if i < hi then RearrangedWithin(s2, s3, i, hi) && SortedRange(comp, s3, i, hi) else s3 == s2
    ensures RearrangedWithin(s0, s3, lo, hi) && SortedRange(comp, s3, lo, hi)
  {
    PartedSurvives(comp, s1, s2, lo, hi, i, j, v);
    PartedSurvives(comp, s2, s3, lo, hi, i, j, v);
    RearrangeTwice(s0, s1, s2, lo, hi, lo, j);
    RearrangeTwice(s0, s2, s3, lo, hi, i, hi);
    SortedFromParts(comp, s3, lo, hi, i, j, v);
  }
}

/**
  The growable circular list of list.c. `elem[head]`, `elem[head + 1]`, ... (modulo `size`)
  hold the elements; Contents() is the sequence they denote.
 */
module CircularList {
  import opened Ring
  import opened Ordering

  datatype ErrorCode = OK | BOUNDS | NOT_FOUND | EMPTY

  /** The cells of a circular buffer in logical order, from array index `start` on. */
  ghost function Unwrap<T>(a: seq<T>, start: int): (s: seq<T>)
    ensures |s| == |a|
    ensures 0 <= start < |a| ==> forall k {:trigger s[k]} :: 0 <= k < |a| ==> s[k] == a[Slot(start, k, |a|)]
  {
    if 0 <= start < |a| then seq(|a|, k requires 0 <= k < |a| => a[Slot(start, k, |a|)]) else a
  }

  /** Writing the cell k places after `start` writes logical position k and nothing else. */
  lemma WriteCell<T>(a: seq<T>, start: int, k: int, x: T)
    requires 0 <= start < |a| && 0 <= k < |a|
    ensures Unwrap(a[Slot(start, k, |a|) := x], start) == Unwrap(a, start)[k := x]
  {
  }

  /** Moving the starting point one cell on takes the first logical cell to the end. */
  lemma Rotate<T>(a: seq<T>, start: int)
    requires 0 <= start < |a|
    ensures Unwrap(a, Wrap(start + 1, |a|)) == Unwrap(a, start)[1..] + [Unwrap(a, start)[0]]
  {
    var s, t := Unwrap(a, start), Unwrap(a, Wrap(start + 1, |a|));
    forall k | 0 <= k < |a|
      ensures t[k] == if k == |a| - 1 then s[0] else s[k + 1]
    {
      SlotFromNext(start, k, |a|);
    }
  }

  /** Seen from one cell before the head, a list that is not full starts with a gap. */
  lemma GapBeforeHead<T>(a: seq<T>, head: int, count: int)
    requires 0 <= head < |a| && 0 <= count < |a|
    ensures GapAt(Unwrap(a, Wrap(head - 1 + |a|, |a|)), Unwrap(a, head)[..count], 0)
  {
    Rotate(a, Wrap(head - 1 + |a|, |a|));
  }

  /** `cells` holds s with one free cell at `index`. */
  ghost predicate GapAt<T>(cells: seq<T>, s: seq<T>, index: int) {
    && 0 <= index <= |s| < |cells|
    && (forall k :: 0 <= k < index ==> cells[k] == s[k])
    && (forall k :: index < k <= |s| ==> cells[k] == s[k - 1])
  }

  lemma FillGap<T>(cells: seq<T>, s: seq<T>, index: int, x: T)
    requires GapAt(cells, s, index)
    ensures cells[index := x][..|s| + 1] == s[..index] + [x] + s[index..]
  {
  }

  /** s with the element at `index` taken out. */
  ghost function Without<T>(s: seq<T>, index: int): (r: seq<T>)
    requires 0 <= index < |s|
  {
    s[..index] + s[index + 1..]
  }

  /** Taking an element out is looking at its cell as a gap. */
  lemma GapInPlace<T>(cells: seq<T>, count: int, index: int)
    requires 0 <= index < count <= |cells|
    ensures GapAt(cells, Without(cells[..count], index), index)
  {
  }

  /** Copying a neighbour into the gap moves the gap to that neighbour. */
  lemma MoveGap<T>(cells: seq<T>, s: seq<T>, index: int)
    requires GapAt(cells, s, index)
    ensures index < |s| ==> GapAt(cells[index := cells[index + 1]], s, index + 1)
    ensures index > 0 ==> GapAt(cells[index := cells[index - 1]], s, index - 1)
  {
  }

  /** Dropping the last cell, when that is the gap. */
  lemma DropTail<T>(a: seq<T>, head: int, s: seq<T>, x: T)
    requires 0 <= head < |a| && GapAt(Unwrap(a, head), s, |s|)
    ensures Unwrap(a[Slot(head, |s|, |a|) := x], head)[..|s|] == s
  {
    WriteCell(a, head, |s|, x);
  }

  /** Dropping the first cell, when that is the gap. */
  lemma DropHead<T>(a: seq<T>, head: int, s: seq<T>, x: T)
    requires 0 <= head < |a| && GapAt(Unwrap(a, head), s, 0)
    ensures Unwrap(a[head := x], Wrap(head + 1, |a|))[..|s|] == s
  {
    WriteCell(a, head, 0, x);
    Rotate(a[head := x], head);
  }

  class List<T(==)> {
    const nil: T                // NULL
    var count: int
    var error_code: ErrorCode
    var size: int
    var head: int
    var tail: int
    var elem: array<T>

    ghost predicate Valid()
      reads this
    {
      && 4 <= size == elem.Length
      && 0 <= head < size
      && 0 <= count <= size
      && tail == Slot(head, count, size)
    }

    /** All cells in logical order, seen from array index `start`. */
    ghost function Cells(start: int): (s: seq<T>)
      reads `elem, elem
    {
      Unwrap(elem[..], start)
    }

    ghost function Contents(): (s: seq<T>)
      reads this, elem
      requires Valid()
      ensures |s| == count
    {
      Cells(head)[..count]
    }

    /** list_create_with_size */
    constructor (size: int, nil: T)
      ensures Valid() && fresh(elem)
      ensures Contents() == [] && this.nil == nil && error_code == OK
    {
      this.nil := nil;
      this.size := if size < 4 then 4 else size;
      elem := new T[if size < 4 then 4 else size](_ => nil);
      count, head, tail, error_code := 0, 0, 0, OK;
    }

    method Grow()
      requires Valid()
      modifies this
      ensures Valid() && fresh(elem)
      ensures Contents() == old(Contents())
      ensures size == 2 * old(size) && head == 0
      ensures error_code == old(error_code)
    {
      var nsize := size * 2;
      var nelem := new T[nsize](_ => nil);
      var i, index := head, 0;
      while index < count
        modifies nelem
        invariant 0 <= index <= count
        invariant i == Slot(head, index, size)
        invariant forall k :: 0 <= k < index ==> nelem[k] == elem[Slot(head, k, size)]
      {
        nelem[index] := elem[i];
        i, index := Wrap(i + 1, size), index + 1;
      }
      elem, size, head, tail := nelem, nsize, 0, count;
      assert Contents() == old(Contents());
    }

    /** "Grow list if necessary" */
    method Reserve()
      requires Valid()
      modifies this
      ensures Valid() && count < size && (elem == old(elem) || fresh(elem))
      ensures Contents() == old(Contents())
    {
      if count == size {
        Grow();
      }
    }

    /** list_add, also list_push and list_enqueue */
    method Add(x: T)
      requires Valid()
      modifies this, elem
      ensures Valid() && (elem == old(elem) || fresh(elem))
      ensures Contents() == old(Contents()) + [x]
      ensures error_code == OK
    {
      Reserve();
      ghost var before := elem[..];
      elem[tail] := x;
      assert elem[..] == before[tail := x];
      WriteCell(before, head, count, x);
      tail := Wrap(tail + 1, size);
      count := count + 1;
      error_code := OK;
    }

    method Get(index: int) returns (x: T)
      requires Valid()
      modifies this`error_code
      ensures Valid()
      ensures if 0 <= index < count then error_code == OK && x == Contents()[index]
              else error_code == BOUNDS && x == nil
    {
      if index < 0 || index >= count {
        error_code := BOUNDS;
        return nil;
      }
      error_code := OK;
      return elem[Slot(head, index, size)];
    }

    method Set(index: int, x: T)
      requires Valid()
      modifies this`error_code, elem
      ensures Valid()
      ensures if 0 <= index < count then error_code == OK && Contents() == old(Contents())[index := x]
              else error_code == BOUNDS && unchanged(elem)
    {
      if index < 0 || index >= count {
        error_code := BOUNDS;
        return;
      }
      elem[Slot(head, index, size)] := x;
      assert elem[..] == old(elem[..])[Slot(head, index, size) := x];
      WriteCell(old(elem[..]), head, index, x);
      error_code := OK;
    }

    /** elem[pos] = x, where pos is `to` cells after `start`. */
    method Put(pos: int, x: T, ghost start: int, ghost to: int)
      requires 0 <= start < elem.Length && 0 <= to < elem.Length && pos == Slot(start, to, elem.Length)
      modifies elem
      ensures Cells(start) == old(Cells(start))[to := x]
    {
      elem[pos] := x;
      assert elem[..] == old(elem[..])[pos := x];
      WriteCell(old(elem[..]), start, to, x);
    }

    /** list_insert, shifting right: moves the elements from `index` on one cell towards the tail. */
    method OpenGapRight(index: int)
      requires Valid() && count < size && 0 <= index <= count
      modifies elem
      ensures GapAt(Cells(head), old(Contents()), index)
    {
      ghost var s := Contents();
      var shiftcount := count - index;
      var i, pos := 0, tail;
      while i < shiftcount
        modifies elem
        invariant 0 <= i <= shiftcount
        invariant pos == Slot(head, count - i, size)
        invariant GapAt(Cells(head), s, count - i)
      {
        SlotNeighbours(head, count - i - 1, size);
        MoveGap(Cells(head), s, count - i);
        Put(pos, elem[Wrap(pos - 1 + size, size)], head, count - i);
        i, pos := i + 1, Wrap(pos - 1 + size, size);
      }
    }

    /** list_insert, shifting left: moves the elements before `index` one cell ahead of the head. */
    method OpenGapLeft(index: int, ghost nhead: int, ghost s: seq<T>)
      requires Valid() && 0 <= index <= count == |s|
      requires 0 <= nhead < size && head == Slot(nhead, 1, size) && GapAt(Cells(nhead), s, 0)
      modifies elem
      ensures GapAt(Cells(nhead), s, index)
    {
      var i, pos := 0, head;
      while i < index
        modifies elem
        invariant 0 <= i <= index
        invariant pos == Slot(nhead, i + 1, size)
        invariant GapAt(Cells(nhead), s, i)
      {
        SlotNeighbours(nhead, i, size);
        MoveGap(Cells(nhead), s, i);
        Put(Wrap(pos - 1 + size, size), elem[pos], nhead, i);
        SlotNeighbours(nhead, i + 1, size);
        i, pos := i + 1, Wrap(pos + 1, size);
      }
    }

    /** list_insert, the left side: shifts, and moves the head back. */
    method MakeRoomLeft(index: int, ghost s: seq<T>)
      requires Valid() && count < size && 0 <= index <= count && s == Contents()
      modifies `head, elem
      ensures 0 <= head < size && tail == Slot(head, count + 1, size)
      ensures GapAt(Cells(head), s, index)
    {
      ghost var nhead := Wrap(head - 1 + size, size);
      GapBeforeHead(elem[..], head, count);
      SlotFromBefore(head, count, size);
      OpenGapLeft(index, nhead, s);
      head := Wrap(head - 1 + size, size);
    }

    /** list_insert: the choice of side. */
    method OpenGap(index: int, ghost s: seq<T>)
      requires Valid() && count < size && 0 <= index <= count && s == Contents()
      modifies `head, `tail, elem
      ensures 0 <= head < size && tail == Slot(head, count + 1, size)
      ensures GapAt(Cells(head), s, index)
    {
      if index > count / 2 {
        SlotNeighbours(head, count, size);
        OpenGapRight(index);
        tail := Wrap(tail + 1, size);
      } else {
        MakeRoomLeft(index, s);
      }
    }

    /** list_insert: makes room by moving the shorter side of the list one cell outwards. */
    method Insert(index: int, x: T)
      requires Valid()
      modifies this, elem
      ensures Valid() && (elem == old(elem) || fresh(elem))
      ensures 0 <= index <= old(count) ==>
                error_code == OK && Contents() == old(Contents())[..index] + [x] + old(Contents())[index..]
      ensures !(0 <= index <= old(count)) ==>
                error_code == BOUNDS && unchanged(`count, `size, `head, `tail, `elem) && unchanged(elem)
    {
      if index < 0 || index > count {
        error_code := BOUNDS;
        return;
      }
      Reserve();
      ghost var s := Contents();
      OpenGap(index, s);
      FillGap(Cells(head), s, index, x);
      Put(Slot(head, index, size), x, head, index);
      count := count + 1;
      error_code := OK;
    }

    method IndexOf(x: T) returns (index: int)
      requires Valid()
      modifies this`error_code
      ensures Valid()
      ensures if x in Contents()
              then error_code == OK && 0 <= index < count && Contents()[index] == x && x !in Contents()[..index]
              else error_code == NOT_FOUND && index == -1
    {
      error_code := OK;
      var i, pos := 0, head;
      while i < count
        modifies {}
        invariant 0 <= i <= count && pos == Slot(head, i, size)
        invariant x !in Contents()[..i]
      {
        assert Contents()[i] == elem[pos];
        if elem[pos] == x {
          return i;
        }
        i, pos := i + 1, Wrap(pos + 1, size);
      }
      error_code := NOT_FOUND;
      return -1;
    }

    /** list_remove_at, closing the gap from the tail side. */
    method CloseGapRight(index: int)
      requires Valid() && 0 <= index < count
      modifies elem
      ensures GapAt(Cells(head), Without(old(Contents()), index), count - 1)
    {
      ghost var r := Without(Contents(), index);
      GapInPlace(Cells(head), count, index);
      var shiftcount := count - index - 1;
      var i, pos := 0, Slot(head, index, size);
      while i < shiftcount
        modifies elem
        invariant 0 <= i <= shiftcount
        invariant pos == Slot(head, index + i, size)
        invariant GapAt(Cells(head), r, index + i)
      {
        SlotNeighbours(head, index + i, size);
        MoveGap(Cells(head), r, index + i);
        Put(pos, elem[Wrap(pos + 1, size)], head, index + i);
        i, pos := i + 1, Wrap(pos + 1, size);
      }
    }

    /** list_remove_at, closing the gap from the head side. */
    method CloseGapLeft(index: int)
      requires Valid() && 0 <= index < count
      modifies elem
      ensures GapAt(Cells(head), Without(old(Contents()), index), 0)
    {
      ghost var r := Without(Contents(), index);
      GapInPlace(Cells(head), count, index);
      var i, pos := 0, Slot(head, index, size);
      while i < index
        modifies elem
        invariant 0 <= i <= index
        invariant pos == Slot(head, index - i, size)
        invariant GapAt(Cells(head), r, index - i)
      {
        ghost var gap := index - i;
        SlotNeighbours(head, gap - 1, size);
        assert elem[Wrap(pos - 1 + size, size)] == Cells(head)[gap - 1];
        MoveGap(Cells(head), r, gap);
        Put(pos, elem[Wrap(pos - 1 + size, size)], head, gap);
        i, pos := i + 1, Wrap(pos - 1 + size, size);
      }
    }

    method DropLastCell(ghost r: seq<T>)
      requires Valid() && count == |r| + 1 && GapAt(Cells(head), r, |r|)
      modifies `tail, elem
      ensures tail == Slot(head, |r|, size) && Cells(head)[..|r|] == r
    {
      SlotNeighbours(head, count - 1, size);
      DropTail(elem[..], head, r, nil);
      tail := Wrap(tail - 1 + size, size);
      elem[tail] := nil;
      assert elem[..] == old(elem[..])[tail := nil];
    }

    method DropFirstCell(ghost r: seq<T>)
      requires Valid() && count == |r| + 1 && GapAt(Cells(head), r, 0)
      modifies `head, elem
      ensures 0 <= head < size && tail == Slot(head, |r|, size) && Cells(head)[..|r|] == r
    {
      ghost var a, b := elem[..], elem[..][head := nil];
      assert |a| == size;
      DropHead(a, head, r, nil);
      SlotFromNext(head, |r|, size);
      elem[head] := nil;
      head := Wrap(head + 1, size);
      assert elem[..] == b;
      assert Cells(head) == Unwrap(b, head);
    }

    /** list_remove_at: closes the gap from the shorter side. */
    method RemoveAt(index: int) returns (x: T)
      requires Valid()
      modifies this, elem
      ensures Valid() && elem == old(elem)
      ensures 0 <= index < old(count) ==>
                error_code == OK && x == old(Contents())[index] && Contents() == Without(old(Contents()), index)
      ensures !(0 <= index < old(count)) ==>
                && error_code == BOUNDS && x == nil
                && unchanged(`count, `size, `head, `tail) && unchanged(elem)
    {
      if index < 0 || index >= count {
        error_code := BOUNDS;
        return nil;
      }
      ghost var r := Without(Contents(), index);
      x := elem[Slot(head, index, size)];
      if index > count / 2 {
        CloseGapRight(index);
        DropLastCell(r);
      } else {
        CloseGapLeft(index);
        DropFirstCell(r);
      }
      count := count - 1;
      error_code := OK;
    }

    /** list_remove */
    method Remove(x: T) returns (removed: T)
      requires Valid()
      modifies this, elem
      ensures Valid() && elem == old(elem)
      ensures x !in old(Contents()) ==>
                error_code == NOT_FOUND && removed == nil && Contents() == old(Contents())
      ensures x in old(Contents()) ==>
                && error_code == OK && removed == x
                && exists i :: 0 <= i < old(count) && old(Contents())[i] == x && x !in old(Contents())[..i]
                               && Contents() == Without(old(Contents()), i)
    {
      var index := IndexOf(x);
      if error_code != OK {
        return nil;
      }
      removed := RemoveAt(index);
    }

    /** list_clear */
    method Clear()
      requires Valid()
      modifies this
      ensures Valid() && elem == old(elem) && size == old(size)
      ensures Contents() == [] && error_code == OK
    {
      count, head, tail, error_code := 0, 0, 0, OK;
    }

    /** list_pop */
    method Pop() returns (x: T)
      requires Valid()
      modifies this, elem
      ensures Valid() && elem == old(elem)
      ensures old(count) == 0 ==> error_code == EMPTY && x == nil && Contents() == []
      ensures old(count) > 0 ==> error_code == OK && old(Contents()) == Contents() + [x]
    {
      if count == 0 {
        error_code := EMPTY;
        return nil;
      }
      x := RemoveAt(count - 1);
    }

    /** list_dequeue */
    method Dequeue() returns (x: T)
      requires Valid()
      modifies this, elem
      ensures Valid() && elem == old(elem)
      ensures old(count) == 0 ==> error_code == EMPTY && x == nil && Contents() == []
      ensures old(count) > 0 ==> error_code == OK && old(Contents()) == [x] + Contents()
    {
      if count == 0 {
        error_code := EMPTY;
        return nil;
      }
      x := RemoveAt(0);
    }

    /** Exchanges ELEM(i) and ELEM(j). */
    method Swap(i: int, j: int)
      requires Valid() && 0 <= i < count && 0 <= j < count
      modifies elem
      ensures Contents() == old(Contents())[i := old(Contents()[j])][j := old(Contents()[i])]
    {
      var a, b := Slot(head, i, size), Slot(head, j, size);
      var tmp := elem[a];
      elem[a] := elem[b];
      ghost var mid := elem[..];
      assert mid == old(elem[..])[a := old(elem[b])];
      WriteCell(old(elem[..]), head, i, old(elem[b]));
      elem[b] := tmp;
      assert elem[..] == mid[b := tmp];
      WriteCell(mid, head, j, tmp);
    }

    /** The first inner loop of sort: skips what is below the pivot, up to a known stopper. */
    method ScanUp(start: int, v: T, comp: (T, T) -> int, ghost stop: int) returns (i: int)
      requires Valid() && 0 <= start <= stop < count
      requires comp(Contents()[stop], v) >= 0
      ensures start <= i <= stop && comp(Contents()[i], v) >= 0
      ensures forall k :: start <= k < i ==> comp(Contents()[k], v) < 0
    {
      i := start;
      while comp(elem[Slot(head, i, size)], v) < 0
        invariant start <= i <= stop
        invariant forall k :: start <= k < i ==> comp(Contents()[k], v) < 0
        decreases stop - i
      {
        i := i + 1;
      }
    }

    /** The second inner loop of sort: skips what is above the pivot, down to a known stopper. */
    method ScanDown(start: int, v: T, comp: (T, T) -> int, ghost stop: int) returns (j: int)
      requires Valid() && 0 <= stop <= start < count
      requires comp(Contents()[stop], v) <= 0
      ensures stop <= j <= start && comp(Contents()[j], v) <= 0
      ensures forall k :: j < k <= start ==> comp(Contents()[k], v) > 0
    {
      j := start;
      while comp(elem[Slot(head, j, size)], v) > 0
        invariant stop <= j <= start
        invariant forall k :: j < k <= start ==> comp(Contents()[k], v) > 0
        decreases j
      {
        j := j - 1;
      }
    }

    /** Both inner loops: the next two elements that are not on their side of the pivot. */
    method ScanBoth(i0: int, j0: int, lo: int, hi: int, comp: (T, T) -> int, v: T) returns (i: int, j: int)
      requires Valid() && 0 <= lo <= i0 <= j0 <= hi < count
      requires Parted(comp, Contents(), lo, hi, i0, j0, v)
      requires (i0 == lo && j0 == hi && comp(Contents()[hi], v) == 0) || (lo < i0 && j0 < hi)
      ensures i0 <= i <= j0 + 1 && i0 - 1 <= j <= j0 && i <= hi && lo <= j
      ensures comp(Contents()[i], v) >= 0 && comp(Contents()[j], v) <= 0
      ensures Parted(comp, Contents(), lo, hi, i, j, v)
    {
      i := ScanUp(i0, v, comp, if j0 == hi then hi else j0 + 1);
      j := ScanDown(j0, v, comp, if i0 == lo then hi else i0 - 1);
    }

    /** The do-while loop of sort: a Hoare partition of [lo, hi] around the value at hi. */
    method Partition(lo: int, hi: int, comp: (T, T) -> int) returns (i: int, j: int, ghost v: T)
      requires Valid() && 0 <= lo <= hi < count
      requires TotalPreorder(comp, multiset(Contents()))
      modifies elem
      ensures v == old(Contents()[hi])
      ensures lo - 1 <= j < i <= hi + 1 && lo < i && j < hi    // both parts are shorter than [lo, hi]
      ensures RearrangedWithin(old(Contents()), Contents(), lo, hi)
      ensures Parted(comp, Contents(), lo, hi, i, j, v)
    {
      i, j := lo, hi;
      var ptr := elem[Slot(head, hi, size)];
      v := ptr;
      assert v == Contents()[hi] && v in multiset(Contents());
      while i <= j
        modifies elem
        invariant (i == lo && j == hi && Contents()[hi] == v) || (lo < i && j < hi)
        invariant RearrangedWithin(old(Contents()), Contents(), lo, hi)
        invariant Parted(comp, Contents(), lo, hi, i, j, v)
        decreases j - i
      {
        i, j := ScanBoth(i, j, lo, hi, comp, ptr);
        if i <= j {
          PartedStep(comp, Contents(), lo, hi, i, j, v);
          Swap(i, j);
          i, j := i + 1, j - 1;
        }
      }
    }

    /** sort */
    method SortRange(lo: int, hi: int, comp: (T, T) -> int)
      requires Valid() && 0 <= lo <= hi < count
      requires TotalPreorder(comp, multiset(Contents()))
      modifies elem
      ensures RearrangedWithin(old(Contents()), Contents(), lo, hi)
      ensures SortedRange(comp, Contents(), lo, hi)
      decreases hi - lo
    {
      ghost var s0 := Contents();
      var i, j, v := Partition(lo, hi, comp);
      ghost var s1 := Contents();
      if lo < j {
        SortRange(lo, j, comp);
      }
      ghost var s2 := Contents();
      if i < hi {
        SortRange(i, hi, comp);
      }
      assert v in multiset(s0);
      AfterBothSides(comp, s0, s1, s2, Contents(), lo, hi, i, j, v);
    }

    /** list_sort */
    method Sort(comp: (T, T) -> int)
      requires Valid()
      requires TotalPreorder(comp, multiset(Contents()))
      modifies elem
      ensures multiset(Contents()) == multiset(old(Contents()))
      ensures SortedBy(comp, Contents())
    {
      if count != 0 {
        SortRange(0, count - 1, comp);
      }
    }
  }
}
