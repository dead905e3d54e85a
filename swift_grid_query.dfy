/**
 * The query state a grid reports (`SwiftGridQuery`) and what its documentation says it
 * means: the filters are combined with AND, a null or blank search applies no search,
 * and the sorts order records lexicographically, each `Descending` entry reversing only
 * its own key.
 */
module QueryEntity {
  import opened Wrappers
  import opened Text
  import opened Seqs
  import opened Records
  import opened FilterEntity
  import opened SortEntity
  import opened QueryHelper

  /** Pages are numbered from 1. */
  const FirstPage: Int32 := 1
  const DefaultPageSize: Int32 := 10

  datatype SwiftGridQuery = SwiftGridQuery(
    Page: Int32,
    PageSize: Int32,
    Sorts: seq<SortSpec>,
    Filters: seq<FilterSpec>,
    GlobalSearch: Option<string>)

  /** A new query: the first page, ten rows, no sorts, no filters, no search. */
  function NewQuery(): (q: SwiftGridQuery)
    ensures q.Page == FirstPage && q.PageSize == DefaultPageSize
    ensures q.Sorts == [] && q.Filters == [] && q.GlobalSearch.None?
  {
    SwiftGridQuery(FirstPage, DefaultPageSize, [], [], None)
  }

  // ---------------------------------------------------------------- filters

  /** One filter of the list, applied by the helper with its field, short operator code and value. */
  function ApplyFilterSpec(items: seq<Item>, f: FilterSpec): seq<Item> {
    ApplyFilter(items, Some(f.Field), OpCode(f.Operator), f.Value)
  }

  /** Whether a record passes one filter of the list. */
  predicate PassesFilter(f: FilterSpec, x: Item) {
    Keeps(Some(f.Field), OpCode(f.Operator), f.Value, x)
  }

  /** Whether a record passes every filter of the list. */
  predicate PassesAll(filters: seq<FilterSpec>, x: Item) {
    forall f :: f in filters ==> PassesFilter(f, x)
  }

  /** The filters of the list applied one after another. */
  function ApplyFilters(items: seq<Item>, filters: seq<FilterSpec>): seq<Item>
    decreases |filters|
  {
    if filters == [] then items else ApplyFilters(ApplyFilterSpec(items, filters[0]), filters[1..])
  }

  lemma ApplyFilterSpecIsWhere(items: seq<Item>, f: FilterSpec)
    ensures ApplyFilterSpec(items, f) == Where(items, x => PassesFilter(f, x))
  {
    ApplyFilterIsWhere(items, Some(f.Field), OpCode(f.Operator), f.Value);
    WhereExtensional(items, x => Keeps(Some(f.Field), OpCode(f.Operator), f.Value, x), x => PassesFilter(f, x));
  }

  /** Applying the list is one `Where` on the conjunction of its filters. */
  lemma {:induction false} ApplyFiltersIsWhere(items: seq<Item>, filters: seq<FilterSpec>)
    ensures ApplyFilters(items, filters) == Where(items, x => PassesAll(filters, x))
    decreases |filters|
  {
    var all := x => PassesAll(filters, x);
    if filters == [] {
      WhereAll(items, all);
    } else {
      var head := x => PassesFilter(filters[0], x);
      var rest := x => PassesAll(filters[1..], x);
      forall x ensures all(x) == (head(x) && rest(x)) {
        PassesAllCons(filters, x);
      }
      calc {
        ApplyFilters(items, filters);
        ApplyFilters(ApplyFilterSpec(items, filters[0]), filters[1..]);
        { ApplyFilterSpecIsWhere(items, filters[0]); }
        ApplyFilters(Where(items, head), filters[1..]);
        { ApplyFiltersIsWhere(Where(items, head), filters[1..]); }
        Where(Where(items, head), rest);
        { WhereWhere(items, head, rest, all); }
        Where(items, all);
      }
    }
  }

  lemma PassesAllCons(filters: seq<FilterSpec>, x: Item)
    requires filters != []
    ensures PassesAll(filters, x) <==> PassesFilter(filters[0], x) && PassesAll(filters[1..], x)
  {
    forall f | f in filters ensures f == filters[0] || f in filters[1..] {
      if f != filters[0] {
        var i :| 0 <= i < |filters| && filters[i] == f;
        assert filters[1..][i - 1] == f;
      }
    }
  }

  /** The filters are combined with AND: a record survives, as often as it occurs and in its order, exactly when it passes every filter. */
  lemma FiltersAreAnded(items: seq<Item>, filters: seq<FilterSpec>, x: Item)
    ensures IsSubsequence(ApplyFilters(items, filters), items)
    ensures multiset(ApplyFilters(items, filters))[x] == if PassesAll(filters, x) then multiset(items)[x] else 0
  {
    ApplyFiltersIsWhere(items, filters);
    WhereSubsequence(items, y => PassesAll(filters, y));
    WhereCount(items, y => PassesAll(filters, y), x);
  }

  /** Only which filters are listed matters: reordering them, or listing one twice, does not change the result. */
  lemma FilterOrderIrrelevant(items: seq<Item>, fs: seq<FilterSpec>, gs: seq<FilterSpec>)
    requires forall f :: f in fs <==> f in gs
    ensures ApplyFilters(items, fs) == ApplyFilters(items, gs)
  {
    ApplyFiltersIsWhere(items, fs);
    ApplyFiltersIsWhere(items, gs);
    WhereExtensional(items, x => PassesAll(fs, x), x => PassesAll(gs, x));
  }

  /** A permutation of the filter list filters alike. */
  lemma FilterPermutationIrrelevant(items: seq<Item>, fs: seq<FilterSpec>, gs: seq<FilterSpec>)
    requires multiset(fs) == multiset(gs)
    ensures ApplyFilters(items, fs) == ApplyFilters(items, gs)
  {
    forall f ensures f in fs <==> f in gs {
      assert f in fs <==> f in multiset(fs);
      assert f in gs <==> f in multiset(gs);
    }
    FilterOrderIrrelevant(items, fs, gs);
  }

  /** A record's filters may be split anywhere: the list applies as its two halves one after the other. */
  lemma {:induction false} ApplyFiltersAppend(items: seq<Item>, fs: seq<FilterSpec>, gs: seq<FilterSpec>)
    ensures ApplyFilters(items, fs + gs) == ApplyFilters(ApplyFilters(items, fs), gs)
    decreases |fs|
  {
    if fs == [] {
      assert fs + gs == gs;
    } else {
      assert (fs + gs)[1..] == fs[1..] + gs;
      ApplyFiltersAppend(ApplyFilterSpec(items, fs[0]), fs[1..], gs);
    }
  }

  // ---------------------------------------------------------------- the composed evaluation

  /** The filters, then the global search over the searchable properties: one `Where` on passing every filter and the search. */
  function Evaluate(items: seq<Item>, q: SwiftGridQuery, searchable: seq<string>): (r: seq<Item>)
    ensures r == Where(items, x => PassesAll(q.Filters, x) && SearchKeeps(q.GlobalSearch, searchable, x))
  {
    var filtered := ApplyFilters(items, q.Filters);
    ApplyFiltersIsWhere(items, q.Filters);
    GlobalSearchIsWhere(filtered, q.GlobalSearch, searchable);
    WhereWhere(items, x => PassesAll(q.Filters, x), x => SearchKeeps(q.GlobalSearch, searchable, x),
      x => PassesAll(q.Filters, x) && SearchKeeps(q.GlobalSearch, searchable, x));
    ApplyGlobalSearch(filtered, q.GlobalSearch, searchable)
  }

  /** A null, empty or blank search applies no search: the result is the filter-only result. */
  lemma BlankSearchIsFilterOnly(items: seq<Item>, q: SwiftGridQuery, searchable: seq<string>)
    requires IsNullOrWhiteSpace(q.GlobalSearch)
    ensures Evaluate(items, q, searchable) == ApplyFilters(items, q.Filters)
  {
  }

  /** A new query returns every record. */
  lemma NewQueryKeepsAll(items: seq<Item>, searchable: seq<string>)
    ensures Evaluate(items, NewQuery(), searchable) == items
  {
  }

  /** The evaluation keeps, in order and with their multiplicity, exactly the records that pass every filter and the search. */
  lemma EvaluateKeepsExactly(items: seq<Item>, q: SwiftGridQuery, searchable: seq<string>, x: Item)
    ensures IsSubsequence(Evaluate(items, q, searchable), items)
    ensures multiset(Evaluate(items, q, searchable))[x]
         == if PassesAll(q.Filters, x) && SearchKeeps(q.GlobalSearch, searchable, x) then multiset(items)[x] else 0
  {
    var both := y => PassesAll(q.Filters, y) && SearchKeeps(q.GlobalSearch, searchable, y);
    WhereSubsequence(items, both);
    WhereCount(items, both, x);
  }

  // ---------------------------------------------------------------- sorts

  /** Ordinal string comparison: -1, 0 or 1, by the first differing character (its Unicode scalar value), and otherwise by length. */
  function CompareStrings(a: string, b: string): (c: int)
    ensures -1 <= c <= 1
  {
    if a == [] && b == [] then 0
    else if a == [] then -1
    else if b == [] then 1
    else if a[0] < b[0] then -1
    else if a[0] > b[0] then 1
    else CompareStrings(a[1..], b[1..])
  }

  lemma {:induction false} CompareStringsAntisymmetric(a: string, b: string)
    ensures CompareStrings(a, b) == -CompareStrings(b, a)
  {
    if a != [] && b != [] && a[0] == b[0] {
      CompareStringsAntisymmetric(a[1..], b[1..]);
    }
  }

  lemma {:induction false} CompareStringsZeroIff(a: string, b: string)
    ensures CompareStrings(a, b) == 0 <==> a == b
  {
    if a != [] && b != [] && a[0] == b[0] {
      CompareStringsZeroIff(a[1..], b[1..]);
      if a[1..] == b[1..] {
        assert a == [a[0]] + a[1..] && b == [b[0]] + b[1..];
      }
    }
  }

  lemma {:induction false} CompareStringsTransitive(a: string, b: string, c: string)
    requires CompareStrings(a, b) < 0 && CompareStrings(b, c) < 0
    ensures CompareStrings(a, c) < 0
  {
    if a != [] && b != [] && c != [] && a[0] == b[0] && b[0] == c[0] {
      CompareStringsTransitive(a[1..], b[1..], c[1..]);
    }
  }

  /** The two kinds of key compare numerically and ordinally; a number sorts before a string. */
  function CompareKeys(a: SortKey, b: SortKey): (c: int)
    ensures -1 <= c <= 1
  {
    match (a, b)
    case (IntKey(m), IntKey(n)) => if m < n then -1 else if m > n then 1 else 0
    case (StrKey(s), StrKey(t)) => CompareStrings(s, t)
    case (IntKey(_), StrKey(_)) => -1
    case (StrKey(_), IntKey(_)) => 1
  }

  /** Keys compare as a total order: antisymmetric, zero only for equal keys, transitive. */
  lemma CompareKeysOrder(a: SortKey, b: SortKey, c: SortKey)
    ensures CompareKeys(a, b) == -CompareKeys(b, a)
    ensures CompareKeys(a, b) == 0 <==> a == b
    ensures CompareKeys(a, b) < 0 && CompareKeys(b, c) < 0 ==> CompareKeys(a, c) < 0
  {
    if a.StrKey? && b.StrKey? {
      CompareStringsAntisymmetric(a.s, b.s);
      CompareStringsZeroIff(a.s, b.s);
      if c.StrKey? && CompareKeys(a, b) < 0 && CompareKeys(b, c) < 0 {
        CompareStringsTransitive(a.s, b.s, c.s);
      }
    }
  }

  /** One sort entry's comparison of two records: its key's order, reversed when `Descending`. */
  function CompareBy(s: SortSpec, x: Item, y: Item): int {
    var c := CompareKeys(GetSortExpression(s.Field, x), GetSortExpression(s.Field, y));
    if s.Direction == Ascending then c else -c
  }

  /** The sort list's comparison: the first entry decides unless it ties, then the next, and so on. */
  function CompareBySorts(sorts: seq<SortSpec>, x: Item, y: Item): (c: int)
    ensures -1 <= c <= 1
  {
    if sorts == [] then 0
    else
      var c := CompareBy(sorts[0], x, y);
      if c != 0 then c else CompareBySorts(sorts[1..], x, y)
  }

  /** The index of the first sort entry whose keys differ for the two records, or the list's length. */
  function FirstDifference(sorts: seq<SortSpec>, x: Item, y: Item): (k: nat)
    ensures k <= |sorts|
    ensures forall j :: 0 <= j < k ==> CompareBy(sorts[j], x, y) == 0
    ensures k < |sorts| ==> CompareBy(sorts[k], x, y) != 0
  {
    if sorts == [] then 0
    else if CompareBy(sorts[0], x, y) != 0 then 0
    else 1 + FirstDifference(sorts[1..], x, y)
  }

  /** The comparison is the first differing entry's, and 0 when no entry differs. */
  lemma {:induction false} CompareIsFirstDifference(sorts: seq<SortSpec>, x: Item, y: Item)
    ensures var k := FirstDifference(sorts, x, y);
      CompareBySorts(sorts, x, y) == if k < |sorts| then CompareBy(sorts[k], x, y) else 0
  {
    if sorts != [] && CompareBy(sorts[0], x, y) == 0 {
      var rest := sorts[1..];
      var j := FirstDifference(rest, x, y);
      CompareIsFirstDifference(rest, x, y);
      assert FirstDifference(sorts, x, y) == j + 1;
      assert CompareBySorts(sorts, x, y) == CompareBySorts(rest, x, y);
      if j < |rest| {
        assert rest[j] == sorts[j + 1];
      }
    }
  }

  function Opposite(d: SortDirection): SortDirection {
    if d == Ascending then Descending else Ascending
  }

  /** Flipping one entry's direction negates that entry's comparison. */
  lemma OppositeNegates(s: SortSpec, x: Item, y: Item)
    ensures CompareBy(s.(Direction := Opposite(s.Direction)), x, y) == -CompareBy(s, x, y)
  {
  }

  /**
   * A `Descending` entry reverses only its own key: flipping the direction of entry `k`
   * reverses the outcome when `k` is the first entry on which the records differ, and
   * changes nothing otherwise.
   */
  lemma {:induction false} FlipDirectionAt(sorts: seq<SortSpec>, k: nat, x: Item, y: Item)
    requires k < |sorts|
    ensures var flipped := sorts[k := sorts[k].(Direction := Opposite(sorts[k].Direction))];
      CompareBySorts(flipped, x, y)
        == if FirstDifference(sorts, x, y) == k then -CompareBySorts(sorts, x, y) else CompareBySorts(sorts, x, y)
  {
    var flipped := sorts[k := sorts[k].(Direction := Opposite(sorts[k].Direction))];
    if k == 0 {
      OppositeNegates(sorts[0], x, y);
      assert flipped[1..] == sorts[1..];
    } else {
      assert flipped[0] == sorts[0];
      if CompareBy(sorts[0], x, y) == 0 {
        assert flipped[1..] == sorts[1..][k - 1 := sorts[k].(Direction := Opposite(sorts[k].Direction))];
        FlipDirectionAt(sorts[1..], k - 1, x, y);
        assert FirstDifference(sorts, x, y) == 1 + FirstDifference(sorts[1..], x, y);
      }
    }
  }

  /** Every record ties with itself. */
  lemma {:induction false} CompareReflexive(sorts: seq<SortSpec>, x: Item)
    ensures CompareBySorts(sorts, x, x) == 0
  {
    if sorts != [] {
      CompareKeysOrder(GetSortExpression(sorts[0].Field, x), GetSortExpression(sorts[0].Field, x), GetSortExpression(sorts[0].Field, x));
      CompareReflexive(sorts[1..], x);
    }
  }

  /** Swapping the records reverses the comparison. */
  lemma {:induction false} CompareAntisymmetric(sorts: seq<SortSpec>, x: Item, y: Item)
    ensures CompareBySorts(sorts, x, y) == -CompareBySorts(sorts, y, x)
  {
    if sorts != [] {
      var s := sorts[0];
      CompareKeysOrder(GetSortExpression(s.Field, x), GetSortExpression(s.Field, y), GetSortExpression(s.Field, y));
      CompareAntisymmetric(sorts[1..], x, y);
    }
  }

  /** One entry orders records transitively, and ties only records with equal keys. */
  lemma CompareByOrder(s: SortSpec, x: Item, y: Item, z: Item)
    ensures CompareBy(s, x, y) == 0 <==> GetSortExpression(s.Field, x) == GetSortExpression(s.Field, y)
    ensures CompareBy(s, x, y) < 0 && CompareBy(s, y, z) < 0 ==> CompareBy(s, x, z) < 0
  {
    var a, b, c := GetSortExpression(s.Field, x), GetSortExpression(s.Field, y), GetSortExpression(s.Field, z);
    CompareKeysOrder(a, b, c);
    CompareKeysOrder(c, b, a);
    CompareKeysOrder(b, a, c);
    CompareKeysOrder(a, c, b);
    CompareKeysOrder(b, c, a);
  }

  /** The sort order is transitive, so the lexicographic comparison is a total preorder on records. */
  lemma {:induction false} CompareTransitive(sorts: seq<SortSpec>, x: Item, y: Item, z: Item)
    requires CompareBySorts(sorts, x, y) <= 0 && CompareBySorts(sorts, y, z) <= 0
    ensures CompareBySorts(sorts, x, z) <= 0
  {
    if sorts != [] {
      var s := sorts[0];
      CompareByOrder(s, x, y, z);
      CompareByOrder(s, y, z, x);
      CompareByOrder(s, x, z, y);
      if CompareBy(s, x, y) == 0 && CompareBy(s, y, z) == 0 {
        CompareTransitive(sorts[1..], x, y, z);
      }
    }
  }
}
