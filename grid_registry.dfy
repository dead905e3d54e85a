/**
 * The browser script's registry of live tables: one entry per table key, and beside it,
 * under the key with "_queryState" appended, the search text last applied to that table.
 * `searchAll` installs or clears the free-text row filter and records the search;
 * `destroyTable` removes both entries.
 */
module GridRegistry {
  import opened Wrappers
  import opened Text
  import opened GridScript

  const QueryStateSuffix := "_queryState"

  /** The key of a table's search state. */
  function QueryStateKey(key: string): (k: string)
    ensures k != key
  {
    key + QueryStateSuffix
  }

  /** The row filter a table has: none, or the free-text search over the named columns. */
  datatype TableFilter = NoFilter | SearchFilter(fieldNames: seq<string>, searchLower: string)

  /** A registry entry: a table, with its columns' fields and its current row filter, or a search state. */
  datatype Entry =
    | Table(columns: seq<Option<string>>, filter: TableFilter)
    | SearchState(globalSearch: Option<string>)

  /** How `searchAll` ended. */
  datatype SearchOutcome =
    | TableNotFound
    | Cleared
    | NoSearchableColumns
    | Searching(fieldNames: seq<string>, searchLower: string)

  /** A table is found for a non-empty key that names a table (an entry without `setFilter` is rejected too). */
  predicate Found(tables: map<string, Entry>, key: string) {
    key != "" && key in tables && tables[key].Table?
  }

  /** `!searchValue || searchValue.trim() === ""`. */
  predicate IsBlank(searchValue: Option<string>) {
    searchValue.None? || Trim(searchValue.value, IsJsWhiteSpace) == ""
  }

  /** The outcome of `searchAll(key, searchValue)`. */
  function SearchAllOutcome(tables: map<string, Entry>, key: string, searchValue: Option<string>): SearchOutcome {
    if !Found(tables, key) then TableNotFound
    else if IsBlank(searchValue) then Cleared
    else
      var names := ColumnFields(tables[key].columns);
      if names == [] then NoSearchableColumns else Searching(names, Lower(searchValue.value))
  }

  /** The registry with the table's filter cleared and an existing search state set to null. */
  function ClearSearch(tables: map<string, Entry>, key: string): map<string, Entry>
    requires key in tables && tables[key].Table?
  {
    var qsKey := QueryStateKey(key);
    var t := tables[key := tables[key].(filter := NoFilter)];
    if qsKey in t && t[qsKey].SearchState? then t[qsKey := SearchState(None)] else t
  }

  /** The registry with the search installed as the table's filter and recorded in its search state (unless a table sits under that key). */
  function InstallSearch(tables: map<string, Entry>, key: string, names: seq<string>, lower: string, searchValue: Option<string>): map<string, Entry>
    requires key in tables && tables[key].Table?
  {
    var qsKey := QueryStateKey(key);
    var t := tables[key := tables[key].(filter := SearchFilter(names, lower))];
    if qsKey in t && t[qsKey].Table? then t else t[qsKey := SearchState(searchValue)]
  }

  /**
   * The registry after `searchAll(key, searchValue)`: a blank value clears the table's
   * filter and the stored search, if there is one; otherwise, when some column has a
   * field, the table's filter becomes the search and the search state records the value.
   */
  function SearchAllState(tables: map<string, Entry>, key: string, searchValue: Option<string>): map<string, Entry> {
    var outcome := SearchAllOutcome(tables, key, searchValue);
    if outcome.Cleared? then ClearSearch(tables, key)
    else if outcome.Searching? then InstallSearch(tables, key, outcome.fieldNames, outcome.searchLower, searchValue)
    else tables
  }

  /** The registry after `destroyTable(key)`. */
  function DestroyState(tables: map<string, Entry>, key: string): map<string, Entry> {
    if key != "" && key in tables then tables - {key, QueryStateKey(key)} else tables
  }

  class Registry {
    var tables: map<string, Entry>

    constructor ()
      ensures tables == map[]
    {
      tables := map[];
    }

    /** `destroyTable`: forget a registered key and its search state; an unknown key changes nothing. */
    method DestroyTable(key: string)
      modifies this
      ensures tables == DestroyState(old(tables), key)
    {
      if key == "" || key !in tables {
        return;
      }
      tables := tables - {key};
      tables := tables - {QueryStateKey(key)};
    }

    /** The effect of `searchAll` on the registry and its outcome. */
    method SearchAll(key: string, searchValue: Option<string>) returns (outcome: SearchOutcome)
      modifies this
      ensures outcome == SearchAllOutcome(old(tables), key, searchValue)
      ensures tables == SearchAllState(old(tables), key, searchValue)
    {
      if !Found(tables, key) {
        SearchAllNeedsTable(tables, key, searchValue);
        return TableNotFound;
      }
      var table := tables[key];
      if IsBlank(searchValue) {
        ClearedBranch(tables, key, searchValue);
        ClearFilter(key);
        return Cleared;
      }
      var fieldNames := CollectFieldNames(table.columns);
      if |fieldNames| == 0 {
        NoSearchableColumnsKeepsState(tables, key, searchValue.value);
        return NoSearchableColumns;
      }
      var searchLower := Lower(searchValue.value);
      SearchingBranch(tables, key, searchValue.value);
      SetSearchFilter(key, fieldNames, searchLower, searchValue);
      return Searching(fieldNames, searchLower);
    }

    /** The blank branch of `searchAll`: clear the table's filter and null an existing search state. */
    method ClearFilter(key: string)
      requires key in tables && tables[key].Table?
      modifies this
      ensures tables == ClearSearch(old(tables), key)
    {
      var qsKey := QueryStateKey(key);
      tables := tables[key := tables[key].(filter := NoFilter)];
      if qsKey in tables && tables[qsKey].SearchState? {
        tables := tables[qsKey := SearchState(None)];
      }
    }

    /** The active branch of `searchAll`: install the search filter and record the search. */
    method SetSearchFilter(key: string, names: seq<string>, lower: string, searchValue: Option<string>)
      requires key in tables && tables[key].Table?
      modifies this
      ensures tables == InstallSearch(old(tables), key, names, lower, searchValue)
    {
      var qsKey := QueryStateKey(key);
      tables := tables[key := tables[key].(filter := SearchFilter(names, lower))];
      if !(qsKey in tables && tables[qsKey].Table?) {
        tables := tables[qsKey := SearchState(searchValue)];
      }
    }
  }

  /** Whether a row passes a table's filter; the search filter is the predicate `SearchPredicate` computes. */
  predicate Passes(filter: TableFilter, row: JsValue) {
    filter.NoFilter? || RowMatches(row, filter.fieldNames, filter.searchLower)
  }

  /** Only the table's entry and its search state can change. */
  lemma SearchAllTouchesOnlyItsKeys(tables: map<string, Entry>, key: string, searchValue: Option<string>, k: string)
    requires k != key && k != QueryStateKey(key)
    ensures var r := SearchAllState(tables, key, searchValue);
      (k in r <==> k in tables) && (k in tables ==> r[k] == tables[k])
  {
    if !Found(tables, key) {
      SearchAllNeedsTable(tables, key, searchValue);
    } else if IsBlank(searchValue) {
      ClearedBranch(tables, key, searchValue);
    } else if ColumnFields(tables[key].columns) == [] {
      NoSearchableColumnsKeepsState(tables, key, searchValue.value);
    } else {
      SearchingBranch(tables, key, searchValue.value);
    }
  }

  /** An unknown key, or an entry that is not a table, leaves the registry as it was. */
  lemma SearchAllNeedsTable(tables: map<string, Entry>, key: string, searchValue: Option<string>)
    requires !Found(tables, key)
    ensures SearchAllOutcome(tables, key, searchValue) == TableNotFound
    ensures SearchAllState(tables, key, searchValue) == tables
  {
  }

  /** The blank branch: the outcome is `Cleared` and the registry is `ClearSearch`'s. */
  lemma ClearedBranch(tables: map<string, Entry>, key: string, searchValue: Option<string>)
    requires Found(tables, key) && IsBlank(searchValue)
    ensures SearchAllOutcome(tables, key, searchValue) == Cleared
    ensures SearchAllState(tables, key, searchValue) == ClearSearch(tables, key)
  {
  }

  /** The active branch: the outcome names the columns' fields and the lowered text, and the registry is `InstallSearch`'s. */
  lemma SearchingBranch(tables: map<string, Entry>, key: string, s: string)
    requires Found(tables, key) && !IsBlank(Some(s)) && ColumnFields(tables[key].columns) != []
    ensures var names := ColumnFields(tables[key].columns);
      && SearchAllOutcome(tables, key, Some(s)) == Searching(names, Lower(s))
      && SearchAllState(tables, key, Some(s)) == InstallSearch(tables, key, names, Lower(s), Some(s))
  {
    SearchingOutcome(tables, key, s);
  }

  lemma SearchingOutcome(tables: map<string, Entry>, key: string, s: string)
    requires Found(tables, key) && !IsBlank(Some(s)) && ColumnFields(tables[key].columns) != []
    ensures SearchAllOutcome(tables, key, Some(s)) == Searching(ColumnFields(tables[key].columns), Lower(s))
  {
  }

  /**
   * A blank value clears the table's filter and sets an existing search state to null;
   * it creates no search state, and the table's columns stay.
   */
  lemma BlankSearchClears(tables: map<string, Entry>, key: string, searchValue: Option<string>)
    requires Found(tables, key) && IsBlank(searchValue)
    ensures var r := SearchAllState(tables, key, searchValue);
      && key in r && r[key] == Table(tables[key].columns, NoFilter)
      && (QueryStateKey(key) in r <==> QueryStateKey(key) in tables)
      && ((QueryStateKey(key) in tables && tables[QueryStateKey(key)].SearchState?)
          ==> r[QueryStateKey(key)] == SearchState(None))
      && forall row :: Passes(r[key].filter, row)
  {
    ClearedBranch(tables, key, searchValue);
  }

  /**
   * A non-blank value over a table with named columns installs the search over exactly
   * those columns with the lower-cased text, and records the value as it was given.
   */
  lemma ActiveSearchInstalls(tables: map<string, Entry>, key: string, s: string)
    requires Found(tables, key) && !IsBlank(Some(s)) && ColumnFields(tables[key].columns) != []
    ensures var r := SearchAllState(tables, key, Some(s));
      && key in r && r[key] == Table(tables[key].columns, SearchFilter(ColumnFields(tables[key].columns), Lower(s)))
      && (!(QueryStateKey(key) in tables && tables[QueryStateKey(key)].Table?)
          ==> (QueryStateKey(key) in r && r[QueryStateKey(key)] == SearchState(Some(s))))
  {
    SearchingBranch(tables, key, s);
    InstallSearchEffect(tables, key, ColumnFields(tables[key].columns), Lower(s), Some(s));
  }

  lemma InstallSearchEffect(tables: map<string, Entry>, key: string, names: seq<string>, lower: string, searchValue: Option<string>)
    requires key in tables && tables[key].Table?
    ensures var r := InstallSearch(tables, key, names, lower, searchValue);
      && key in r && r[key] == Table(tables[key].columns, SearchFilter(names, lower))
      && (!(QueryStateKey(key) in tables && tables[QueryStateKey(key)].Table?)
          ==> (QueryStateKey(key) in r && r[QueryStateKey(key)] == SearchState(searchValue)))
  {
  }

  /** When no column has a field the search is not applied, and the previous filter and search stay. */
  lemma NoSearchableColumnsKeepsState(tables: map<string, Entry>, key: string, s: string)
    requires Found(tables, key) && !IsBlank(Some(s)) && ColumnFields(tables[key].columns) == []
    ensures SearchAllOutcome(tables, key, Some(s)) == NoSearchableColumns
    ensures SearchAllState(tables, key, Some(s)) == tables
  {
  }

  /** Searching for the same value again changes nothing more. */
  lemma SearchAllIdempotent(tables: map<string, Entry>, key: string, searchValue: Option<string>)
    ensures var once := SearchAllState(tables, key, searchValue);
      SearchAllState(once, key, searchValue) == once
  {
    if !Found(tables, key) {
      SearchAllNeedsTable(tables, key, searchValue);
    } else if IsBlank(searchValue) {
      ClearedBranch(tables, key, searchValue);
      var once := ClearSearch(tables, key);
      assert once[key] == tables[key].(filter := NoFilter);
      ClearedBranch(once, key, searchValue);
      ClearSearchIdempotent(tables, key);
    } else if ColumnFields(tables[key].columns) == [] {
      NoSearchableColumnsKeepsState(tables, key, searchValue.value);
    } else {
      var s := searchValue.value;
      var names := ColumnFields(tables[key].columns);
      SearchingBranch(tables, key, s);
      var once := InstallSearch(tables, key, names, Lower(s), searchValue);
      assert once[key] == tables[key].(filter := SearchFilter(names, Lower(s)));
      SearchingBranch(once, key, s);
      InstallSearchIdempotent(tables, key, names, Lower(s), searchValue);
    }
  }

  lemma ClearSearchIdempotent(tables: map<string, Entry>, key: string)
    requires key in tables && tables[key].Table?
    ensures ClearSearch(ClearSearch(tables, key), key) == ClearSearch(tables, key)
  {
    var once := ClearSearch(tables, key);
    assert once[key := once[key].(filter := NoFilter)] == once;
  }

  lemma InstallSearchIdempotent(tables: map<string, Entry>, key: string, names: seq<string>, lower: string, searchValue: Option<string>)
    requires key in tables && tables[key].Table?
    ensures var once := InstallSearch(tables, key, names, lower, searchValue);
      InstallSearch(once, key, names, lower, searchValue) == once
  {
    var once := InstallSearch(tables, key, names, lower, searchValue);
    assert once[key := once[key].(filter := SearchFilter(names, lower))] == once;
  }

  /** The JavaScript and .NET notions of a blank search differ: a lone U+FEFF is blank to the browser, not to .NET. */
  lemma ByteOrderMarkIsBlankOnlyInBrowser()
    ensures IsBlank(Some("\U{FEFF}"))
    ensures !IsNullOrWhiteSpace(Some("\U{FEFF}"))
  {
    assert IsJsWhiteSpace("\U{FEFF}"[0]);
    assert !IsWhiteSpace("\U{FEFF}"[0]);
  }

  /** A destroyed table is gone together with its search state; nothing else changes. */
  lemma DestroyRemovesBoth(tables: map<string, Entry>, key: string, k: string)
    requires key != "" && key in tables
    ensures var r := DestroyState(tables, key);
      && key !in r && QueryStateKey(key) !in r
      && (k != key && k != QueryStateKey(key) ==> (k in r <==> k in tables) && (k in tables ==> r[k] == tables[k]))
  {
  }

  /** Destroying twice is destroying once, and a search on a destroyed table finds nothing. */
  lemma DestroyIdempotent(tables: map<string, Entry>, key: string, searchValue: Option<string>)
    ensures DestroyState(DestroyState(tables, key), key) == DestroyState(tables, key)
    ensures key != "" && key in tables ==> SearchAllOutcome(DestroyState(tables, key), key, searchValue) == TableNotFound
  {
  }
}
