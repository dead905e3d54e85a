/**
 * The browser side of the grid: the helpers that read options written by .NET, the
 * conversion of pagination options into the table library's options object, the
 * translation of the table's sort, filter and page state into the .NET query shape,
 * and the row predicate of the free-text search.
 */
module GridScript {
  import opened Wrappers
  import opened Text
  import opened Seqs
  import FilterEntity
  import SortEntity
  import QueryEntity

  /** A JavaScript value, as far as these functions look at it; numbers are integers here. */
  datatype JsValue =
    | Undefined
    | Null
    | Bool(b: bool)
    | Num(n: int)
    | Str(s: string)
    | Object(props: map<string, JsValue>)
    | Other(text: string)

  /** JavaScript truthiness (NaN is not a value of this model). */
  predicate Truthy(v: JsValue) {
    match v
    case Undefined => false
    case Null => false
    case Bool(b) => b
    case Num(n) => n != 0
    case Str(s) => s != ""
    case _ => true
  }

  /** `a || b`: the first operand when it is truthy, otherwise the second. */
  function Or(a: JsValue, b: JsValue): (r: JsValue)
    ensures Truthy(a) ==> r == a
    ensures !Truthy(a) ==> r == b
    ensures r == a || r == b
    ensures Truthy(r) <==> Truthy(a) || Truthy(b)
  {
    if Truthy(a) then a else b
  }

  /** `v == null`: loose equality with null holds for null and undefined only. */
  predicate IsNullish(v: JsValue) {
    v == Null || v == Undefined
  }

  /** `obj?.[key]`: an own property of an object, undefined for anything else. */
  function Get(obj: JsValue, key: string): JsValue {
    if obj.Object? && key in obj.props then obj.props[key] else Undefined
  }

  /** `String(v)`. */
  function ToJsString(v: JsValue): string {
    match v
    case Undefined => "undefined"
    case Null => "null"
    case Bool(b) => if b then "true" else "false"
    case Num(n) => IntToString(n)
    case Str(s) => s
    case Object(_) => "[object Object]"
    case Other(t) => t
  }

  /** The default page and page size the browser reports when the table has no pages. */
  const DefaultPage := 1
  const DefaultPageSize := 10
  const DefaultPaginationMode := "local"
  const DefaultPaginationCounter := "rows"

  // ---------------------------------------------------------------- option helpers

  /** `getProperty`: the camelCase property if defined, else the PascalCase one if defined, else the default. */
  function GetProperty(obj: JsValue, camelKey: string, pascalKey: string, defaultValue: JsValue): (r: JsValue)
    ensures Get(obj, camelKey) != Undefined ==> r == Get(obj, camelKey)
    ensures Get(obj, camelKey) == Undefined && Get(obj, pascalKey) != Undefined ==> r == Get(obj, pascalKey)
    ensures Get(obj, camelKey) == Undefined && Get(obj, pascalKey) == Undefined ==> r == defaultValue
    ensures r == Undefined <==> Get(obj, camelKey) == Undefined && Get(obj, pascalKey) == Undefined && defaultValue == Undefined
  {
    if Get(obj, camelKey) != Undefined then Get(obj, camelKey)
    else if Get(obj, pascalKey) != Undefined then Get(obj, pascalKey)
    else defaultValue
  }

  /** An option sent under its PascalCase name reads as if it had been sent under its camelCase name. */
  lemma EitherSpellingReadsAlike(camelKey: string, pascalKey: string, v: JsValue, defaultValue: JsValue)
    requires camelKey != pascalKey && v != Undefined
    ensures GetProperty(Object(map[pascalKey := v]), camelKey, pascalKey, defaultValue)
         == GetProperty(Object(map[camelKey := v]), camelKey, pascalKey, defaultValue)
         == v
  {
  }

  /** A property is never read as undefined when the default is defined. */
  lemma GetPropertyDefined(obj: JsValue, camelKey: string, pascalKey: string, defaultValue: JsValue)
    requires defaultValue != Undefined
    ensures GetProperty(obj, camelKey, pascalKey, defaultValue) != Undefined
  {
  }

  /** `normalizeFieldName`: lower-case the first character of a non-empty string; anything else is returned as it is. */
  function NormalizeFieldName(field: JsValue): (r: JsValue)
    ensures !(field.Str? && field.s != "") ==> r == field
    ensures field.Str? ==> r.Str? && |r.s| == |field.s|
    ensures field.Str? && field.s != "" ==> r.s[0] == LowerChar(field.s[0]) && r.s[1..] == field.s[1..]
  {
    if !Truthy(field) || !field.Str? then field
    else Str([LowerChar(field.s[0])] + field.s[1..])
  }

  /** Normalising a normalised name changes nothing. */
  lemma NormalizeIdempotent(field: JsValue)
    ensures NormalizeFieldName(NormalizeFieldName(field)) == NormalizeFieldName(field)
  {
    if field.Str? && field.s != "" {
      LowerCharIdempotent(field.s[0]);
      var r := NormalizeFieldName(field);
      assert r.s == [r.s[0]] + r.s[1..];
    }
  }

  /** Normalisation only changes case: the name folds to the same lower-case text. */
  lemma NormalizeKeepsFolding(field: string)
    ensures NormalizeFieldName(Str(field)).Str?
    ensures Lower(NormalizeFieldName(Str(field)).s) == Lower(field)
  {
    if field != "" {
      LowerCharIdempotent(field[0]);
    }
  }

  /** What `setPropertyIfNotNull` leaves in the target: the value if it is neither null nor undefined, else a non-null default, else nothing new. */
  function SetIfNotNull(props: map<string, JsValue>, key: string, value: JsValue, defaultValue: JsValue): map<string, JsValue> {
    if !IsNullish(value) then props[key := value]
    else if !IsNullish(defaultValue) then props[key := defaultValue]
    else props
  }

  /** Only `key` can change, and it ends up with the value, the default, or what it had. */
  lemma SetIfNotNullEffect(props: map<string, JsValue>, key: string, value: JsValue, defaultValue: JsValue, k: string)
    ensures var r := SetIfNotNull(props, key, value, defaultValue);
      && (k != key ==> (k in r <==> k in props) && (k in props ==> r[k] == props[k]))
      && (!IsNullish(value) ==> key in r && r[key] == value)
      && (IsNullish(value) && !IsNullish(defaultValue) ==> key in r && r[key] == defaultValue)
      && (IsNullish(value) && IsNullish(defaultValue) ==> r == props)
  {
  }

  /** A JavaScript object that functions write properties into. */
  class JsObject {
    var props: map<string, JsValue>

    constructor (props0: map<string, JsValue>)
      ensures props == props0
    {
      props := props0;
    }

    function Value(): JsValue
      reads this
    {
      Object(props)
    }

    /**
     * `setPropertyIfNotNull(target, key, value, defaultValue = null)`. A default passed as
     * undefined is replaced by the declared default, null.
     */
    method SetPropertyIfNotNull(key: string, value: JsValue, defaultValue: JsValue := Null)
      modifies this
      ensures props == SetIfNotNull(old(props), key, value, defaultValue)
    {
      var d := if defaultValue == Undefined then Null else defaultValue;
      if value != Null && value != Undefined {
        props := props[key := value];
      } else if d != Null {
        props := props[key := d];
      }
    }
  }

  // ---------------------------------------------------------------- pagination options

  /** The keys pagination conversion may write. */
  const PaginationKeys: set<string> :=
    {"pagination", "paginationSize", "paginationMode", "paginationCounter", "paginationSizeSelector", "paginationButtonCount"}

  /** How the counter option is written: `true` becomes "rows", `false` stays `false`, null writes nothing. */
  function SetCounter(props: map<string, JsValue>, counter: JsValue): map<string, JsValue> {
    if counter != Null && counter != Bool(false) then
      props["paginationCounter" := if counter == Bool(true) then Str(DefaultPaginationCounter) else counter]
    else if counter == Bool(false) then props["paginationCounter" := Bool(false)]
    else props
  }

  /** The library options after `convertPaginationOptions(options, tabOptions)`. */
  function ConvertedPagination(options: JsValue, tab: map<string, JsValue>): map<string, JsValue> {
    var pagination := GetProperty(options, "pagination", "Pagination", Bool(false));
    if !Truthy(pagination) then tab
    else
      var t1 := tab["pagination" := if pagination == Bool(true) then Str(DefaultPaginationMode) else pagination];
      var t2 := SetIfNotNull(t1, "paginationSize", GetProperty(options, "paginationSize", "PaginationSize", Null), Null);
      var t3 := SetIfNotNull(t2, "paginationMode", GetProperty(options, "paginationMode", "PaginationMode", Null), Null);
      var t4 := SetCounter(t3, GetProperty(options, "paginationCounter", "PaginationCounter", Null));
      LastWrites(options, t4)
  }

  /** The last two writes of `convertPaginationOptions`: the size selector and the button count. */
  function LastWrites(options: JsValue, t4: map<string, JsValue>): map<string, JsValue> {
    var t5 := SetIfNotNull(t4, "paginationSizeSelector", GetProperty(options, "paginationSizeSelector", "PaginationSizeSelector", Null), Null);
    SetIfNotNull(t5, "paginationButtonCount", GetProperty(options, "paginationButtonCount", "PaginationButtonCount", Null), Null)
  }

  lemma LastWritesKeep(options: JsValue, t4: map<string, JsValue>, k: string)
    requires k != "paginationSizeSelector" && k != "paginationButtonCount"
    ensures var r := LastWrites(options, t4);
      (k in r <==> k in t4) && (k in t4 ==> r[k] == t4[k])
  {
  }

  /** `convertPaginationOptions`: writes the pagination keys of `options` into `tabOptions`. */
  method ConvertPaginationOptions(options: JsValue, tabOptions: JsObject)
    modifies tabOptions
    ensures tabOptions.props == ConvertedPagination(options, old(tabOptions.props))
  {
    var pagination := GetProperty(options, "pagination", "Pagination", Bool(false));
    if !Truthy(pagination) {
      return;
    }
    tabOptions.props := tabOptions.props["pagination" := if pagination == Bool(true) then Str(DefaultPaginationMode) else pagination];
    tabOptions.SetPropertyIfNotNull("paginationSize", GetProperty(options, "paginationSize", "PaginationSize", Null));
    tabOptions.SetPropertyIfNotNull("paginationMode", GetProperty(options, "paginationMode", "PaginationMode", Null));
    var paginationCounter := GetProperty(options, "paginationCounter", "PaginationCounter", Null);
    if paginationCounter != Null && paginationCounter != Bool(false) {
      tabOptions.props := tabOptions.props["paginationCounter" :=
        if paginationCounter == Bool(true) then Str(DefaultPaginationCounter) else paginationCounter];
    } else if paginationCounter == Bool(false) {
      tabOptions.props := tabOptions.props["paginationCounter" := Bool(false)];
    }
    tabOptions.SetPropertyIfNotNull("paginationSizeSelector", GetProperty(options, "paginationSizeSelector", "PaginationSizeSelector", Null));
    tabOptions.SetPropertyIfNotNull("paginationButtonCount", GetProperty(options, "paginationButtonCount", "PaginationButtonCount", Null));
  }

  /** Falsy or missing pagination adds no key at all. */
  lemma PaginationOffAddsNothing(options: JsValue, tab: map<string, JsValue>)
    requires !Truthy(GetProperty(options, "pagination", "Pagination", Bool(false)))
    ensures ConvertedPagination(options, tab) == tab
  {
  }

  /** Keys other than the pagination keys are never touched. */
  lemma PaginationKeepsOtherKeys(options: JsValue, tab: map<string, JsValue>, k: string)
    requires k !in PaginationKeys
    ensures var r := ConvertedPagination(options, tab);
      (k in r <==> k in tab) && (k in tab ==> r[k] == tab[k])
  {
    var p := GetProperty(options, "pagination", "Pagination", Bool(false));
    if Truthy(p) {
      var t1 := tab["pagination" := if p == Bool(true) then Str(DefaultPaginationMode) else p];
      var size := GetProperty(options, "paginationSize", "PaginationSize", Null);
      var t2 := SetIfNotNull(t1, "paginationSize", size, Null);
      var mode := GetProperty(options, "paginationMode", "PaginationMode", Null);
      var t3 := SetIfNotNull(t2, "paginationMode", mode, Null);
      var t4 := SetCounter(t3, GetProperty(options, "paginationCounter", "PaginationCounter", Null));
      assert ConvertedPagination(options, tab) == LastWrites(options, t4);
      SetIfNotNullEffect(t1, "paginationSize", size, Null, k);
      SetIfNotNullEffect(t2, "paginationMode", mode, Null, k);
      LastWritesKeep(options, t4, k);
    }
  }

  /** `pagination: true` becomes the "local" mode; another truthy value is copied. */
  lemma PaginationModeWritten(options: JsValue, tab: map<string, JsValue>)
    requires Truthy(GetProperty(options, "pagination", "Pagination", Bool(false)))
    ensures var p := GetProperty(options, "pagination", "Pagination", Bool(false));
      var r := ConvertedPagination(options, tab);
      "pagination" in r && r["pagination"] == if p == Bool(true) then Str("local") else p
  {
    var p := GetProperty(options, "pagination", "Pagination", Bool(false));
    var t1 := tab["pagination" := if p == Bool(true) then Str(DefaultPaginationMode) else p];
    var size := GetProperty(options, "paginationSize", "PaginationSize", Null);
    var t2 := SetIfNotNull(t1, "paginationSize", size, Null);
    var mode := GetProperty(options, "paginationMode", "PaginationMode", Null);
    var t3 := SetIfNotNull(t2, "paginationMode", mode, Null);
    var t4 := SetCounter(t3, GetProperty(options, "paginationCounter", "PaginationCounter", Null));
    assert ConvertedPagination(options, tab) == LastWrites(options, t4);
    SetIfNotNullEffect(t1, "paginationSize", size, Null, "pagination");
    SetIfNotNullEffect(t2, "paginationMode", mode, Null, "pagination");
    LastWritesKeep(options, t4, "pagination");
  }

  /** With pagination on, a `true` counter becomes "rows", `false` stays `false`, and a missing or null counter leaves the key as it was. */
  lemma PaginationCounterWritten(options: JsValue, tab: map<string, JsValue>)
    requires Truthy(GetProperty(options, "pagination", "Pagination", Bool(false)))
    ensures var c := GetProperty(options, "paginationCounter", "PaginationCounter", Null);
      var r := ConvertedPagination(options, tab);
      && (c == Bool(true) ==> "paginationCounter" in r && r["paginationCounter"] == Str("rows"))
      && (c == Bool(false) ==> "paginationCounter" in r && r["paginationCounter"] == Bool(false))
      && (c != Null && c != Bool(true) && c != Bool(false) ==> "paginationCounter" in r && r["paginationCounter"] == c)
      && (c == Null ==> ("paginationCounter" in r <==> "paginationCounter" in tab)
                        && ("paginationCounter" in tab ==> r["paginationCounter"] == tab["paginationCounter"]))
  {
    var p := GetProperty(options, "pagination", "Pagination", Bool(false));
    var t1 := tab["pagination" := if p == Bool(true) then Str(DefaultPaginationMode) else p];
    var size := GetProperty(options, "paginationSize", "PaginationSize", Null);
    var t2 := SetIfNotNull(t1, "paginationSize", size, Null);
    var mode := GetProperty(options, "paginationMode", "PaginationMode", Null);
    var t3 := SetIfNotNull(t2, "paginationMode", mode, Null);
    var t4 := SetCounter(t3, GetProperty(options, "paginationCounter", "PaginationCounter", Null));
    assert ConvertedPagination(options, tab) == LastWrites(options, t4);
    LastWritesKeep(options, t4, "paginationCounter");
  }

  /** With pagination on, a size given under either spelling is copied, and a missing or null one writes nothing. */
  lemma PaginationSizeWritten(options: JsValue, tab: map<string, JsValue>)
    requires Truthy(GetProperty(options, "pagination", "Pagination", Bool(false)))
    ensures var v := GetProperty(options, "paginationSize", "PaginationSize", Null);
      var r := ConvertedPagination(options, tab);
      && (!IsNullish(v) ==> "paginationSize" in r && r["paginationSize"] == v)
      && (IsNullish(v) ==> ("paginationSize" in r <==> "paginationSize" in tab)
                           && ("paginationSize" in tab ==> r["paginationSize"] == tab["paginationSize"]))
  {
    var p := GetProperty(options, "pagination", "Pagination", Bool(false));
    var t1 := tab["pagination" := if p == Bool(true) then Str(DefaultPaginationMode) else p];
    var size := GetProperty(options, "paginationSize", "PaginationSize", Null);
    var t2 := SetIfNotNull(t1, "paginationSize", size, Null);
    var mode := GetProperty(options, "paginationMode", "PaginationMode", Null);
    var t3 := SetIfNotNull(t2, "paginationMode", mode, Null);
    var t4 := SetCounter(t3, GetProperty(options, "paginationCounter", "PaginationCounter", Null));
    assert ConvertedPagination(options, tab) == LastWrites(options, t4);
    assert "paginationSize"[10] != "paginationMode"[10];
    SetIfNotNullEffect(t1, "paginationSize", size, Null, "paginationSize");
    SetIfNotNullEffect(t2, "paginationMode", mode, Null, "paginationSize");
    LastWritesKeep(options, t4, "paginationSize");
  }

  // ---------------------------------------------------------------- filter types

  /** `FILTER_TYPE_MAP`: the table library's filter types and the operator codes they stand for. */
  const FilterTypeMap: map<string, string> := map[
    "=" := "eq", "==" := "eq", "!=" := "neq", "!==" := "neq",
    "like" := "like", "regex" := "like",
    ">" := "gt", ">=" := "gte", "<" := "lt", "<=" := "lte",
    "in" := "in", "nin" := "nin"]

  /** `FILTER_TYPE_MAP[type]`: the mapped code, undefined for a type that is not a key. */
  function LookupFilterType(tabulatorType: JsValue): JsValue {
    if tabulatorType.Str? && tabulatorType.s in FilterTypeMap then Str(FilterTypeMap[tabulatorType.s]) else Undefined
  }

  /** `mapFilterTypeToOperator`: the mapped code, else the type itself if truthy, else "eq". */
  function MapFilterTypeToOperator(tabulatorType: JsValue): (r: JsValue)
    ensures tabulatorType.Str? && tabulatorType.s in FilterTypeMap ==> r == Str(FilterTypeMap[tabulatorType.s])
    ensures !(tabulatorType.Str? && tabulatorType.s in FilterTypeMap) && Truthy(tabulatorType) ==> r == tabulatorType
    ensures !Truthy(tabulatorType) ==> r == Str("eq")
    ensures Truthy(r)
  {
    Or(Or(LookupFilterType(tabulatorType), tabulatorType), Str("eq"))
  }

  /** Every value of the table is one of the nine codes the .NET `Op` setter accepts, and it selects the operator whose code it is. */
  lemma FilterTypeMapAgreesWithOp(t: string)
    requires t in FilterTypeMap
    ensures FilterTypeMap[t] in FilterEntity.OpCodes
    ensures FilterEntity.OpCode(FilterEntity.ParseOp(Some(FilterTypeMap[t]))) == FilterTypeMap[t]
  {
    FilterEntity.OpCodesAreLower(FilterTypeMap[t]);
    FilterEntity.CodeRoundTrip(FilterTypeMap[t]);
  }

  /** A filter type the table does not list, such as "starts", passes through and reaches .NET as `Equal`. */
  lemma UnmappedFilterTypeIsEqual()
    ensures MapFilterTypeToOperator(Str("starts")) == Str("starts")
    ensures FilterEntity.ParseOp(Some("starts")) == FilterEntity.Equal
  {
    assert "starts" !in FilterTypeMap;
    FilterEntity.ParseOpFallback(Some("starts"));
  }

  // ---------------------------------------------------------------- table state as a query

  /** A sorter as the table reports it. */
  datatype TabSorter = TabSorter(field: JsValue, dir: JsValue)

  /** A header filter as the table reports it. */
  datatype TabFilter = TabFilter(field: JsValue, filterType: JsValue, value: JsValue)

  /** The sort entry sent to .NET. */
  datatype SortInfo = SortInfo(Field: JsValue, Dir: string)

  /** The filter entry sent to .NET. */
  datatype FilterInfo = FilterInfo(Field: JsValue, Op: JsValue, Value: JsValue)

  function ToSortInfo(sorter: TabSorter): SortInfo {
    SortInfo(Or(sorter.field, Str("")), if sorter.dir == Str("desc") then "desc" else "asc")
  }

  /** `getSortInfo`: one entry per sorter, in order; `None` is a result that is not an array. */
  function GetSortInfo(sorters: Option<seq<TabSorter>>): (r: seq<SortInfo>)
    ensures sorters.None? ==> r == []
    ensures sorters.Some? ==> |r| == |sorters.value|
  {
    if sorters.None? then [] else seq(|sorters.value|, i requires 0 <= i < |sorters.value| => ToSortInfo(sorters.value[i]))
  }

  /**
   * Each sort entry keeps its sorter's place; its direction is "desc" exactly when the
   * sorter's is the string "desc", and the .NET `Dir` setter turns that into `Descending`
   * exactly then; a falsy field is sent as "".
   */
  lemma SortInfoEntries(sorters: seq<TabSorter>, i: nat)
    requires i < |sorters|
    ensures var e := GetSortInfo(Some(sorters))[i];
      && (e.Dir == "desc" <==> sorters[i].dir == Str("desc"))
      && (e.Dir == "asc" || e.Dir == "desc")
      && SortEntity.ParseDir(Some(e.Dir)) == (if sorters[i].dir == Str("desc") then SortEntity.Descending else SortEntity.Ascending)
      && e.Field == (if Truthy(sorters[i].field) then sorters[i].field else Str(""))
  {
    assert Lower("desc") == "desc";
    assert Lower("asc") != "desc";
  }

  /** The browser is stricter than .NET: "DESC" from the table is sent as "asc". */
  lemma UpperCaseDescIsAscending()
    ensures GetSortInfo(Some([TabSorter(Str("f"), Str("DESC"))])) == [SortInfo(Str("f"), "asc")]
  {
  }

  /** A reported filter is sent only if its field is truthy and its type is not undefined. */
  predicate Reportable(f: TabFilter) {
    Truthy(f.field) && f.filterType != Undefined
  }

  function ToFilterInfo(f: TabFilter): FilterInfo {
    FilterInfo(Or(f.field, Str("")), MapFilterTypeToOperator(f.filterType), f.value)
  }

  function MapToFilterInfo(filters: seq<TabFilter>): (r: seq<FilterInfo>)
    ensures |r| == |filters| && forall i :: 0 <= i < |filters| ==> r[i] == ToFilterInfo(filters[i])
  {
    seq(|filters|, i requires 0 <= i < |filters| => ToFilterInfo(filters[i]))
  }

  /** `getFilterInfo`: the reportable filters, in order, each with its type mapped to an operator code. */
  function GetFilterInfo(filters: Option<seq<TabFilter>>): (r: seq<FilterInfo>)
    ensures filters.None? ==> r == []
  {
    if filters.None? then [] else MapToFilterInfo(Where(filters.value, Reportable))
  }

  /** The entries sent are exactly the reportable filters, in their order, translated; each has a truthy field and a truthy operator. */
  lemma FilterInfoEntries(filters: seq<TabFilter>)
    ensures GetFilterInfo(Some(filters)) == MapToFilterInfo(Where(filters, Reportable))
    ensures |GetFilterInfo(Some(filters))| <= |filters|
    ensures forall e :: e in GetFilterInfo(Some(filters)) ==> Truthy(e.Field) && Truthy(e.Op)
  {
    var kept := Where(filters, Reportable);
    forall e | e in GetFilterInfo(Some(filters)) ensures Truthy(e.Field) && Truthy(e.Op) {
      var i :| 0 <= i < |kept| && e == ToFilterInfo(kept[i]);
      WhereMembership(filters, Reportable, kept[i]);
    }
  }

  /** A filter whose field is falsy or whose type is undefined is dropped. */
  lemma UnreportableFilterDropped(filters: seq<TabFilter>, f: TabFilter)
    requires !Reportable(f)
    ensures GetFilterInfo(Some(filters + [f])) == GetFilterInfo(Some(filters))
  {
    WhereAppend(filters, [f], Reportable);
    assert Where([f], Reportable) == [];
    assert Where(filters + [f], Reportable) == Where(filters, Reportable) + [];
  }

  /** What the table reports about paging: whether the page module is loaded, and its `getPage()` and `getPageSize()`. */
  datatype TabPaging = TabPaging(hasPageModule: bool, page: JsValue, pageSize: JsValue)

  datatype PaginationInfo = PaginationInfo(Page: int, PageSize: int)

  /** `getPaginationInfo`: the reported page and size when they are numbers, else 1 and 10. */
  function GetPaginationInfo(t: TabPaging): (r: PaginationInfo)
    ensures (t.hasPageModule && t.page.Num?) ==> r.Page == t.page.n
    ensures !(t.hasPageModule && t.page.Num?) ==> r.Page == DefaultPage
    ensures (t.hasPageModule && t.pageSize.Num?) ==> r.PageSize == t.pageSize.n
    ensures !(t.hasPageModule && t.pageSize.Num?) ==> r.PageSize == DefaultPageSize
  {
    if !t.hasPageModule then PaginationInfo(DefaultPage, DefaultPageSize)
    else PaginationInfo(
      if t.page != Bool(false) && t.page.Num? then t.page.n else DefaultPage,
      if t.pageSize != Bool(false) && t.pageSize.Num? then t.pageSize.n else DefaultPageSize)
  }

  /** The browser's fallbacks agree with a new .NET query's page and page size. */
  lemma PagingDefaultsAgree(t: TabPaging)
    requires !t.hasPageModule || (!t.page.Num? && !t.pageSize.Num?)
    ensures GetPaginationInfo(t).Page == QueryEntity.NewQuery().Page as int
    ensures GetPaginationInfo(t).PageSize == QueryEntity.NewQuery().PageSize as int
  {
  }

  /** The query state object sent to .NET. */
  datatype QueryState = QueryState(Page: int, PageSize: int, Sorts: seq<SortInfo>, Filters: seq<FilterInfo>, GlobalSearch: JsValue)

  /** `getQueryState`; a falsy search (such as "") is sent as null. */
  function GetQueryState(paging: TabPaging, sorters: Option<seq<TabSorter>>, filters: Option<seq<TabFilter>>, globalSearch: JsValue): (r: QueryState)
    ensures r.GlobalSearch == Null || (Truthy(r.GlobalSearch) && r.GlobalSearch == globalSearch)
    ensures !Truthy(globalSearch) ==> r.GlobalSearch == Null
  {
    QueryState(GetPaginationInfo(paging).Page, GetPaginationInfo(paging).PageSize,
               GetSortInfo(sorters), GetFilterInfo(filters), Or(globalSearch, Null))
  }

  // ---------------------------------------------------------------- the search predicate

  /** One column's value matches: it is neither null nor undefined, and its lower-cased text contains the search text. */
  predicate FieldHit(value: JsValue, searchLower: string) {
    !IsNullish(value) && Contains(Lower(ToJsString(value)), searchLower)
  }

  /** A row passes the search: some listed column matches. */
  predicate RowMatches(data: JsValue, fieldNames: seq<string>, searchLower: string) {
    exists i :: 0 <= i < |fieldNames| && FieldHit(Get(data, fieldNames[i]), searchLower)
  }

  /** The row filter `searchAll` installs: scan the columns in order and stop at the first match. */
  method SearchPredicate(data: JsValue, fieldNames: seq<string>, searchLower: string) returns (keep: bool)
    ensures keep <==> RowMatches(data, fieldNames, searchLower)
  {
    var i := 0;
    while i < |fieldNames|
      invariant 0 <= i <= |fieldNames|
      invariant forall j :: 0 <= j < i ==> !FieldHit(Get(data, fieldNames[j]), searchLower)
    {
      var fieldValue := Get(data, fieldNames[i]);
      if fieldValue != Null && fieldValue != Undefined {
        var fieldStr := Lower(ToJsString(fieldValue));
        if Contains(fieldStr, searchLower) {
          return true;
        }
      }
      i := i + 1;
    }
    return false;
  }

  /** The search is case-insensitive in the row's values: a value containing the text in any case matches its lower-cased form. */
  lemma ContainedValueMatches(data: JsValue, fieldNames: seq<string>, i: nat, search: string)
    requires i < |fieldNames| && !IsNullish(Get(data, fieldNames[i]))
    requires Contains(ToJsString(Get(data, fieldNames[i])), search)
    ensures RowMatches(data, fieldNames, Lower(search))
  {
    ContainsLower(ToJsString(Get(data, fieldNames[i])), search);
  }

  /** `field` of a column is truthy: it is a non-empty string. */
  predicate HasField(field: Option<string>) {
    field.Some? && field.value != ""
  }

  /** The searchable fields: the non-empty column fields, in column order. */
  function ColumnFields(columns: seq<Option<string>>): (r: seq<string>)
    ensures |r| <= |columns|
  {
    if columns == [] then []
    else if HasField(columns[0]) then [columns[0].value] + ColumnFields(columns[1..])
    else ColumnFields(columns[1..])
  }

  /** A name is collected exactly when some column carries it, and no empty name is. */
  lemma {:induction false} ColumnFieldsMembership(columns: seq<Option<string>>, name: string)
    ensures name in ColumnFields(columns) <==> name != "" && Some(name) in columns
  {
    if columns != [] {
      ColumnFieldsMembership(columns[1..], name);
      assert columns == [columns[0]] + columns[1..];
    }
  }

  /** The loop of `searchAll` that collects the searchable fields. */
  method CollectFieldNames(columns: seq<Option<string>>) returns (fieldNames: seq<string>)
    ensures fieldNames == ColumnFields(columns)
  {
    fieldNames := [];
    var i := 0;
    while i < |columns|
      invariant 0 <= i <= |columns|
      invariant fieldNames + ColumnFields(columns[i..]) == ColumnFields(columns)
    {
      assert columns[i..][1..] == columns[i + 1..];
      var field := columns[i];
      if field.Some? && field.value != "" {
        fieldNames := fieldNames + [field.value];
      }
      i := i + 1;
    }
    assert columns[i..] == [];
  }
}
