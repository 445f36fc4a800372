/**
  The symbol index of elf-format.c: symbols are kept in a circular list, sorted once, and looked up by
  address with a binary search followed by a walk backwards.
 */
module ElfSymbols {
  import opened Basics
  import opened Ordering
  import opened CircularList

  type Word = x: int | 0 <= x < 0x1_0000_0000         // unsigned int

  /** struct elf_symbol_t; a name has no zero byte in it. */
  datatype Symbol = Symbol(name: seq<Byte>, value: Word, size: Word, section: int, info: Byte, visibility: Byte)

  /** struct elf_symbol_t * */
  datatype SymbolRef = NULL | At(symbol: Symbol)

  /** strcmp: by the first bytes that differ, where the end of a string comes before every byte. */
  function StrCmp(a: seq<Byte>, b: seq<Byte>): int {
    if a == [] then (if b == [] then 0 else -1)
    else if b == [] then 1
    else if a[0] != b[0] then a[0] - b[0]
    else StrCmp(a[1..], b[1..])
  }

  lemma {:induction false} StrCmpReverse(a: seq<Byte>, b: seq<Byte>)
    ensures StrCmp(a, b) < 0 <==> StrCmp(b, a) > 0
    ensures StrCmp(a, b) == 0 <==> a == b
  {
    if a != [] && b != [] && a[0] == b[0] {
      StrCmpReverse(a[1..], b[1..]);
      assert a == [a[0]] + a[1..] && b == [b[0]] + b[1..];
    }
  }

  lemma {:induction false} StrCmpTransitive(a: seq<Byte>, b: seq<Byte>, c: seq<Byte>)
    requires StrCmp(a, b) <= 0 && StrCmp(b, c) <= 0
    ensures StrCmp(a, c) <= 0
  {
    if a != [] && b != [] && c != [] && a[0] == b[0] == c[0] {
      StrCmpTransitive(a[1..], b[1..], c[1..]);
    }
  }

  /** a comes before b: it is a proper prefix of b, or smaller in the first byte that differs. */
  ghost predicate NamePrecedes(a: seq<Byte>, b: seq<Byte>) {
    exists k :: 0 <= k <= |a| && k < |b| && a[..k] == b[..k] && (k == |a| || a[k] < b[k])
  }

  lemma {:induction false} PrecedesIsLess(a: seq<Byte>, b: seq<Byte>)
    requires NamePrecedes(a, b)
    ensures StrCmp(a, b) < 0
  {
    var k :| 0 <= k <= |a| && k < |b| && a[..k] == b[..k] && (k == |a| || a[k] < b[k]);
    if k > 0 {
      assert a[0] == a[..k][0] == b[..k][0] == b[0];
      assert a[1..][..k - 1] == a[..k][1..] && b[1..][..k - 1] == b[..k][1..];
      PrecedesIsLess(a[1..], b[1..]);
    }
  }

  lemma {:induction false} LessPrecedes(a: seq<Byte>, b: seq<Byte>)
    requires StrCmp(a, b) < 0
    ensures NamePrecedes(a, b)
  {
    if a != [] && a[0] == b[0] {
      var a', b' := a[1..], b[1..];
      LessPrecedes(a', b');
      var k :| 0 <= k <= |a'| && k < |b'| && a'[..k] == b'[..k] && (k == |a'| || a'[k] < b'[k]);
      assert a[..k + 1] == [a[0]] + a'[..k] && b[..k + 1] == [b[0]] + b'[..k];
    } else {
      assert a[..0] == b[..0];
    }
  }

  /** strcmp is negative exactly when the first name comes before the second. */
  lemma StrCmpExactly(a: seq<Byte>, b: seq<Byte>)
    ensures StrCmp(a, b) < 0 <==> NamePrecedes(a, b)
  {
    if NamePrecedes(a, b) {
      PrecedesIsLess(a, b);
    }
    if StrCmp(a, b) < 0 {
      LessPrecedes(a, b);
    }
  }

  /** ST_BIND: the upper half of st_info. */
  function Bind(info: Byte): int {
    info / 16 % 16
  }

  /** elf_symbol_compare; it is never called on a null pointer. */
  function Compare(a: SymbolRef, b: SymbolRef): int {
    if a.NULL? || b.NULL? then 0
    else if a.symbol.value < b.symbol.value then -1
    else if a.symbol.value > b.symbol.value then 1
    else if Bind(a.symbol.info) < Bind(b.symbol.info) then -1
    else if Bind(a.symbol.info) > Bind(b.symbol.info) then 1
    else StrCmp(a.symbol.name, b.symbol.name)
  }

  /** The comparator can be sorted by: on real symbols it is a total preorder. */
  lemma CompareIsPreorder(m: multiset<SymbolRef>)
    requires NULL !in m
    ensures TotalPreorder(Compare, m)
  {
    forall a, b | a in m && b in m
      ensures Compare(a, b) < 0 <==> Compare(b, a) > 0
    {
      StrCmpReverse(a.symbol.name, b.symbol.name);
    }
    forall a, b, c | a in m && b in m && c in m && Compare(a, b) <= 0 && Compare(b, c) <= 0
      ensures Compare(a, c) <= 0
    {
      if StrCmp(a.symbol.name, b.symbol.name) <= 0 && StrCmp(b.symbol.name, c.symbol.name) <= 0 {
        StrCmpTransitive(a.symbol.name, b.symbol.name, c.symbol.name);
      }
    }
  }

  /** The table as loading leaves it. */
  ghost predicate Index(t: seq<SymbolRef>) {
    && (forall i :: 0 <= i < |t| ==> t[i].At?)
    && SortedBy(Compare, t)
  }

  ghost predicate Covers(r: SymbolRef, addr: Word) {
    r.At? && 0 < r.symbol.value <= addr
  }

  /** Of two symbols with the same value, a is to be preferred: its binding is lower, or that is the same and its name comes first. */
  ghost predicate Preferred(a: Symbol, b: Symbol) {
    a.info / 16 < b.info / 16 || (a.info / 16 == b.info / 16 && NamePrecedes(a.name, b.name))
  }

  lemma CompareExactly(a: Symbol, b: Symbol)
    ensures Compare(At(a), At(b)) < 0 <==> a.value < b.value || (a.value == b.value && Preferred(a, b))
  {
    StrCmpExactly(a.name, b.name);
  }

  /**
    The answer by looking at every symbol, whatever their order: among the symbols with a positive
    value not above addr, one with the greatest value, and of those one to which none is preferred.
   */
  ghost predicate BestFor(t: seq<SymbolRef>, addr: Word, r: SymbolRef) {
    if r.NULL? then forall i :: 0 <= i < |t| ==> !Covers(t[i], addr)
    else
      && r in t && Covers(r, addr)
      && (forall i :: 0 <= i < |t| && Covers(t[i], addr) ==> t[i].symbol.value <= r.symbol.value)
      && (forall i :: 0 <= i < |t| && t[i].At? && t[i].symbol.value == r.symbol.value ==> !Preferred(t[i].symbol, r.symbol))
  }

  /** The answer is unique up to symbols that agree in value, binding and name. */
  lemma BestIsUnique(t: seq<SymbolRef>, addr: Word, r: SymbolRef, r': SymbolRef)
    requires BestFor(t, addr, r) && BestFor(t, addr, r')
    ensures r.NULL? <==> r'.NULL?
    ensures r.At? ==>
              && r.symbol.value == r'.symbol.value && r.symbol.name == r'.symbol.name
              && r.symbol.info / 16 == r'.symbol.info / 16
  {
    if r.At? {
      var i :| 0 <= i < |t| && t[i] == r;
      if r'.At? {
        var j :| 0 <= j < |t| && t[j] == r';
        StrCmpExactly(r.symbol.name, r'.symbol.name);
        StrCmpExactly(r'.symbol.name, r.symbol.name);
        StrCmpReverse(r.symbol.name, r'.symbol.name);
        StrCmpReverse(r'.symbol.name, r.symbol.name);
      }
    }
  }

  /** The answer does not depend on the order of the symbols. */
  lemma BestIsOrderFree(t: seq<SymbolRef>, t': seq<SymbolRef>, addr: Word, r: SymbolRef)
    requires multiset(t) == multiset(t') && BestFor(t, addr, r)
    ensures BestFor(t', addr, r)
  {
    forall i | 0 <= i < |t'|
      ensures t'[i] in t
    {
      assert t'[i] in multiset(t);
    }
    if r.At? {
      assert r in multiset(t');
    }
  }

  /** In an index, values never decrease. */
  lemma ValuesAscend(t: seq<SymbolRef>, i: int, j: int)
    requires Index(t) && 0 <= i <= j < |t|
    ensures t[i].symbol.value <= t[j].symbol.value
  {
    assert i < j ==> Compare(t[i], t[j]) <= 0;
  }

  /** The first entry with the greatest value not above addr is the answer. */
  lemma FirstIsBest(t: seq<SymbolRef>, addr: Word, k: int)
    requires Index(t) && 0 <= k < |t| && Covers(t[k], addr)
    requires k == 0 || t[k - 1].symbol.value != t[k].symbol.value
    requires forall i :: 0 <= i < |t| && t[i].symbol.value <= addr ==> t[i].symbol.value <= t[k].symbol.value
    ensures BestFor(t, addr, t[k])
  {
    forall i | 0 <= i < |t| && t[i].symbol.value == t[k].symbol.value
      ensures !Preferred(t[i].symbol, t[k].symbol)
    {
      CompareExactly(t[i].symbol, t[k].symbol);
      if i < k {
        ValuesAscend(t, i, k - 1);
        ValuesAscend(t, k - 1, k);
      } else {
        StrCmpReverse(t[i].symbol.name, t[k].symbol.name);
        assert i > k ==> Compare(t[k], t[i]) <= 0;
      }
    }
  }

  /** elf_file_read_symbol_section */
  method AddNamed(table: List<SymbolRef>, entries: seq<Symbol>)
    requires table.Valid() && table.Contents() == []
    modifies table, table.elem
    ensures table.Valid() && (table.elem == old(table.elem) || fresh(table.elem))
    ensures table.Contents() == Named(entries)
    ensures forall x :: multiset(table.Contents())[At(x)] == if x.name == [] then 0 else multiset(entries)[x]
  {
    var i := 0;
    while i < |entries|
      invariant 0 <= i <= |entries| && table.Valid() && (table.elem == old(table.elem) || fresh(table.elem))
      invariant table.Contents() == Named(entries[..i])
    {
      assert entries[..i + 1][..i] == entries[..i];
      if entries[i].name != [] {
        table.Add(At(entries[i]));
      }
      i := i + 1;
    }
    assert entries[..i] == entries;
    NamedExactly(entries);
  }

  lemma SortedIsIndex(t: seq<SymbolRef>, s: seq<SymbolRef>)
    requires SortedBy(Compare, t) && multiset(t) == multiset(s) && NULL !in s
    ensures Index(t)
  {
    forall k | 0 <= k < |t|
      ensures t[k].At?
    {
      assert t[k] in multiset(t);
    }
  }

  class ElfFile {
    const symbol_table: List<SymbolRef>

    ghost predicate Valid()
      reads symbol_table, symbol_table.elem
    {
      symbol_table.Valid() && symbol_table.nil == NULL && Index(symbol_table.Contents())
    }

    /**
      elf_file_read_symbol_table over the entries of all symbol sections: entries with an empty name
      are left out, the others are added and sorted.
     */
    constructor ReadSymbolTable(entries: seq<Symbol>)
      ensures Valid() && fresh(symbol_table) && fresh(symbol_table.elem)
      ensures multiset(symbol_table.Contents()) == multiset(Named(entries))
      ensures forall x :: multiset(symbol_table.Contents())[At(x)] == if x.name == [] then 0 else multiset(entries)[x]
    {
      symbol_table := new List(8, NULL);
      new;
      AddNamed(symbol_table, entries);
      NamedAreReal(entries);
      CompareIsPreorder(multiset(symbol_table.Contents()));
      symbol_table.Sort(Compare);
      SortedIsIndex(symbol_table.Contents(), Named(entries));
    }

    /** The binary search of elf_symbol_get_by_address. */
    method Search(addr: Word) returns (min: int)
      requires Valid() && symbol_table.count > 0 && symbol_table.Contents()[0].symbol.value <= addr
      modifies symbol_table`error_code
      ensures Valid() && 0 <= min < symbol_table.count
      ensures symbol_table.Contents()[min].symbol.value <= addr
      ensures forall i :: 0 <= i < symbol_table.count && symbol_table.Contents()[i].symbol.value <= addr ==>
                symbol_table.Contents()[i].symbol.value <= symbol_table.Contents()[min].symbol.value
    {
      ghost var t := symbol_table.Contents();
      var max := symbol_table.count;
      min := 0;
      while min + 1 < max
        modifies symbol_table`error_code
        invariant 0 <= min < max <= |t| && t[min].symbol.value <= addr
        invariant max < |t| ==> t[max].symbol.value > addr
      {
        var mid := (max + min) / 2;
        var symbol := symbol_table.Get(mid);
        if symbol.symbol.value > addr {
          max := mid;
        } else if symbol.symbol.value < addr {
          min := mid;
        } else {
          min := mid;
          return;
        }
      }
      forall i | 0 <= i < |t| && t[i].symbol.value <= addr
        ensures t[i].symbol.value <= t[min].symbol.value
      {
        if i <= min {
          ValuesAscend(t, i, min);
        } else {
          ValuesAscend(t, max, i);
        }
      }
    }

    /** The walk back to the first symbol with the same value. */
    method FirstWithValue(start: int) returns (symbol: SymbolRef, ghost k: int)
      requires Valid() && 0 <= start < symbol_table.count
      modifies symbol_table`error_code
      ensures Valid() && 0 <= k <= start && symbol == symbol_table.Contents()[k]
      ensures symbol.symbol.value == symbol_table.Contents()[start].symbol.value
      ensures k == 0 || symbol_table.Contents()[k - 1].symbol.value != symbol.symbol.value
    {
      ghost var t := symbol_table.Contents();
      var min := start;
      symbol := symbol_table.Get(min);
      while true
        modifies symbol_table`error_code
        invariant 0 <= min <= start && symbol == t[min]
        invariant symbol.symbol.value == t[start].symbol.value
        decreases min
      {
        var prev := symbol_table.Get(min - 1);
        if prev == NULL || prev.symbol.value != symbol.symbol.value {
          break;
        }
        min := min - 1;
        symbol := prev;
      }
      k := min;
    }

    /**
      elf_symbol_get_by_address. `offset_before` is what *offset_ptr held; it is overwritten only when
      a symbol is found. The result is the one a scan of all symbols would choose.
     */
    method GetByAddress(addr: Word, offset_before: int) returns (symbol: SymbolRef, offset: int)
      requires Valid()
      modifies symbol_table`error_code
      ensures Valid()
      ensures BestFor(symbol_table.Contents(), addr, symbol)
      ensures offset == if symbol.At? then addr - symbol.symbol.value else offset_before
    {
      offset := offset_before;
      if symbol_table.count == 0 {
        return NULL, offset;
      }
      ghost var t := symbol_table.Contents();
      var first := symbol_table.Get(0);
      if addr < first.symbol.value {
        forall i | 0 <= i < |t|
          ensures !Covers(t[i], addr)
        {
          ValuesAscend(t, 0, i);
        }
        return NULL, offset;
      }
      var min := Search(addr);
      symbol := symbol_table.Get(min);
      if symbol.symbol.value == 0 {
        return NULL, offset;
      }
      ghost var k;
      symbol, k := FirstWithValue(min);
      FirstIsBest(t, addr, k);
      offset := addr - symbol.symbol.value;
    }
  }

  /** The entries that get into the table, in file order. */
  ghost function Named(entries: seq<Symbol>): seq<SymbolRef> {
    if entries == [] then []
    else
      var last := entries[|entries| - 1];
      Named(entries[..|entries| - 1]) + if last.name == [] then [] else [At(last)]
  }

  lemma {:induction false} NamedAreReal(entries: seq<Symbol>)
    ensures NULL !in Named(entries)
  {
    if entries != [] {
      NamedAreReal(entries[..|entries| - 1]);
    }
  }

  /** Every entry with a name gets in as often as it is in the file, and no other. */
  lemma {:induction false} NamedExactly(entries: seq<Symbol>)
    ensures forall x :: multiset(Named(entries))[At(x)] == if x.name == [] then 0 else multiset(entries)[x]
  {
    if entries != [] {
      var front, last := entries[..|entries| - 1], entries[|entries| - 1];
      assert entries == front + [last];
      NamedExactly(front);
    }
  }

  /** The answer for a file: the best of the entries that have a name. */
  ghost predicate BestEntry(entries: seq<Symbol>, addr: Word, r: SymbolRef) {
    if r.NULL? then forall i :: 0 <= i < |entries| && entries[i].name != [] ==> !(0 < entries[i].value <= addr)
    else
      && r.symbol in entries && r.symbol.name != [] && 0 < r.symbol.value <= addr
      && forall i :: 0 <= i < |entries| && entries[i].name != [] && entries[i].value <= addr ==>
           entries[i].value < r.symbol.value || (entries[i].value == r.symbol.value && !Preferred(entries[i], r.symbol))
  }

  /** Loading the symbols of a file and looking one up gives the best of its named entries. */
  method Lookup(entries: seq<Symbol>, addr: Word) returns (symbol: SymbolRef, offset: int)
    ensures BestEntry(entries, addr, symbol)
    ensures symbol.At? ==> offset == addr - symbol.symbol.value
  {
    var file := new ElfFile.ReadSymbolTable(entries);
    symbol, offset := file.GetByAddress(addr, 0);
    BestOfNamed(entries, file.symbol_table.Contents(), addr, symbol);
  }

  lemma BestOfNamed(entries: seq<Symbol>, t: seq<SymbolRef>, addr: Word, r: SymbolRef)
    requires forall x :: multiset(t)[At(x)] == if x.name == [] then 0 else multiset(entries)[x]
    requires BestFor(t, addr, r)
    ensures BestEntry(entries, addr, r)
  {
    forall i | 0 <= i < |entries| && entries[i].name != []
      ensures At(entries[i]) in t
    {
      assert multiset(t)[At(entries[i])] == multiset(entries)[entries[i]] && entries[i] in multiset(entries);
    }
    if r.At? {
      assert multiset(t)[At(r.symbol)] > 0;
      assert r.symbol in multiset(entries);
    }
  }
}
