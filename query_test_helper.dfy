/**
 * The demo page's query helper: one filter applied by field name and operator code,
 * the free-text search across named properties, and the sort key for a field name.
 * Reflection is replaced by the explicit property map of `Records.Item`; results are
 * sequences in the input's order.
 */
module QueryHelper {
  import opened Wrappers
  import opened Text
  import opened Seqs
  import opened Records

  /** The operator codes the helper understands. */
  const EqualOp := "eq"
  const NotEqualOp := "neq"
  const LikeOp := "like"
  const GreaterThanOp := "gt"
  const GreaterThanOrEqualOp := "gte"
  const LessThanOp := "lt"
  const LessThanOrEqualOp := "lte"

  const NumericOps: set<string> := {"eq", "neq", "gt", "gte", "lt", "lte"}
  const StringOps: set<string> := {"eq", "neq", "like"}

  /** The (lower-cased) field names `ApplyFilter` and `GetSortExpression` recognise. */
  const NumericFields: set<string> := {"id", "age"}
  const StringFields: set<string> := {"name", "email", "department"}

  // ---------------------------------------------------------------- property access

  /** `GetPropertyValue<object>`: the property's value; null when the type has no such property. */
  function GetPropertyValue(props: map<string, Option<Obj>>, name: string): (v: Option<Obj>)
    ensures name !in props ==> v == None
  {
    if name in props then props[name] else None
  }

  /** `GetPropertyValue<int>`: the property's value if it is a boxed `int`, otherwise `default(int)`, which is 0. */
  function GetIntProperty(props: map<string, Option<Obj>>, name: string): (v: Int32)
    ensures (name in props && props[name].Some? && props[name].value.IntObj?) ==> v == props[name].value.i
    ensures !(name in props && props[name].Some? && props[name].value.IntObj?) ==> v == 0
  {
    match GetPropertyValue(props, name)
    case Some(IntObj(i)) => i
    case _ => 0
  }

  /** `GetPropertyValue<string>`: the property's value if it is a string, otherwise `default(string)`, which is null. */
  function GetStringProperty(props: map<string, Option<Obj>>, name: string): (v: Option<string>)
    ensures (name in props && props[name].Some? && props[name].value.StrObj?) ==> v == Some(props[name].value.s)
    ensures !(name in props && props[name].Some? && props[name].value.StrObj?) ==> v == None
  {
    match GetPropertyValue(props, name)
    case Some(StrObj(s)) => Some(s)
    case _ => None
  }

  /**
   * A property set to a boxed value of the requested type reads back as that value; set
   * to a value of the other type it reads as the type's default (0 or null).
   */
  lemma TypedPropertyReadBack(props: map<string, Option<Obj>>, name: string, i: Int32, s: string)
    ensures GetIntProperty(props[name := Some(IntObj(i))], name) == i
    ensures GetStringProperty(props[name := Some(StrObj(s))], name) == Some(s)
    ensures GetIntProperty(props[name := Some(StrObj(s))], name) == 0
    ensures GetStringProperty(props[name := Some(IntObj(i))], name) == None
    ensures GetIntProperty(props[name := None], name) == 0 && GetStringProperty(props[name := None], name) == None
  {
  }

  /** Reading one property does not depend on any other property of the record. */
  lemma OtherPropertyIgnored(props: map<string, Option<Obj>>, name: string, other: string, v: Option<Obj>)
    requires other != name
    ensures GetPropertyValue(props[other := v], name) == GetPropertyValue(props, name)
    ensures GetIntProperty(props[other := v], name) == GetIntProperty(props, name)
    ensures GetStringProperty(props[other := v], name) == GetStringProperty(props, name)
  {
  }

  /** The numeric selectors of `ApplyFilter`: `p => p != null ? GetPropertyValue<int>(p, name) : 0`. */
  function IntSelector(x: Item, name: string): Int32 {
    if x.NullItem? then 0 else GetIntProperty(x.props, name)
  }

  /** The string selectors of `ApplyFilter`: `p => p != null ? GetPropertyValue<string>(p, name) : ""`. */
  function StringSelector(x: Item, name: string): Option<string> {
    if x.NullItem? then Some("") else GetStringProperty(x.props, name)
  }

  /** `TryParseInt`: a non-null value whose `ToString()` parses as an `int`. */
  function TryParseInt(value: Option<Obj>): (r: Option<Int32>)
    ensures value.None? ==> r.None?
  {
    if value.None? then None else TryParseInt32(ToText(value.value))
  }

  /** A boxed `int` always parses back to itself, so an `int` value and its decimal text filter alike. */
  lemma TryParseIntOfInt(n: Int32)
    ensures TryParseInt(Some(IntObj(n))) == Some(n)
    ensures TryParseInt(Some(StrObj(IntToString(n)))) == Some(n)
  {
    ParseIntToString(n);
  }

  // ---------------------------------------------------------------- filters

  /** `ApplyNumericFilter`: keep the records whose key compares with `value` as the operator says; any other code keeps all. */
  function ApplyNumericFilter(query: seq<Item>, selector: Item -> int, op: string, value: int): (r: seq<Item>)
    ensures r == Where(query, x => NumericTest(op, selector(x), value))
  {
    var keep := x => NumericTest(op, selector(x), value);
    if op == EqualOp then
      WhereExtensional(query, x => selector(x) == value, keep);
      Where(query, x => selector(x) == value)
    else if op == NotEqualOp then
      WhereExtensional(query, x => selector(x) != value, keep);
      Where(query, x => selector(x) != value)
    else if op == GreaterThanOp then
      WhereExtensional(query, x => selector(x) > value, keep);
      Where(query, x => selector(x) > value)
    else if op == GreaterThanOrEqualOp then
      WhereExtensional(query, x => selector(x) >= value, keep);
      Where(query, x => selector(x) >= value)
    else if op == LessThanOp then
      WhereExtensional(query, x => selector(x) < value, keep);
      Where(query, x => selector(x) < value)
    else if op == LessThanOrEqualOp then
      WhereExtensional(query, x => selector(x) <= value, keep);
      Where(query, x => selector(x) <= value)
    else
      WhereAll(query, keep);
      query
  }

  /** `ApplyStringFilter`: exact, case-sensitive equality and inequality, and case-sensitive containment for "like"; any other code keeps all. */
  function ApplyStringFilter(query: seq<Item>, selector: Item -> Option<string>, op: string, value: Obj): (r: seq<Item>)
    ensures r == Where(query, x => StringTest(op, selector(x), ToText(value).GetOr("")))
  {
    var valueStr := ToText(value).GetOr("");
    var keep := x => StringTest(op, selector(x), valueStr);
    if op == EqualOp then
      WhereExtensional(query, x => selector(x) == Some(valueStr), keep);
      Where(query, x => selector(x) == Some(valueStr))
    else if op == NotEqualOp then
      WhereExtensional(query, x => selector(x) != Some(valueStr), keep);
      Where(query, x => selector(x) != Some(valueStr))
    else if op == LikeOp then
      WhereExtensional(query, x => Contains(selector(x).GetOr(""), valueStr), keep);
      Where(query, x => Contains(selector(x).GetOr(""), valueStr))
    else
      WhereAll(query, keep);
      query
  }

  /** What a filter's field and value select: nothing, an `int` property compared with a number, or a string property. */
  datatype Target = NoTarget | NumericTarget(prop: string, n: int) | StringTarget(prop: string)

  /**
   * The field dispatch of `ApplyFilter`: no value or a blank field selects nothing; the
   * case-folded names "id" and "age" select their `int` property when the value parses
   * as an `int` (and otherwise nothing), "name", "email" and "department" their string
   * property, and any other name nothing.
   */
  function Resolve(field: Option<string>, value: Option<Obj>): (t: Target)
    ensures value.None? || IsNullOrWhiteSpace(field) ==> t == NoTarget
    ensures t.StringTarget? ==> value.Some?
  {
    if value.None? || IsNullOrWhiteSpace(field) then NoTarget
    else
      var fieldLower := Lower(field.value);
      if fieldLower == "id" || fieldLower == "age" then
        var parsed := TryParseInt(value);
        if parsed.None? then NoTarget
        else if fieldLower == "id" then NumericTarget("Id", parsed.value)
        else NumericTarget("Age", parsed.value)
      else if fieldLower == "name" then StringTarget("Name")
      else if fieldLower == "email" then StringTarget("Email")
      else if fieldLower == "department" then StringTarget("Department")
      else NoTarget
  }

  /** `ApplyFilter`: dispatch on the field, then filter with the case-folded operator code. */
  function ApplyFilter(query: seq<Item>, field: Option<string>, op: string, value: Option<Obj>): (r: seq<Item>)
    ensures Resolve(field, value) == NoTarget ==> r == query
  {
    match Resolve(field, value)
    case NoTarget => query
    case NumericTarget(prop, n) => ApplyNumericFilter(query, p => IntSelector(p, prop), Lower(op), n)
    case StringTarget(prop) => ApplyStringFilter(query, p => StringSelector(p, prop), Lower(op), value.value)
  }

  /** How a numeric operator compares a key with the filter value (`Comparer<int>.Default`); other codes accept everything. */
  predicate NumericTest(op: string, key: int, value: int) {
    match op
    case "eq" => key == value
    case "neq" => key != value
    case "gt" => key > value
    case "gte" => key >= value
    case "lt" => key < value
    case "lte" => key <= value
    case _ => true
  }

  /** How a string operator tests a property (null `prop` is a null property); other codes accept everything. */
  predicate StringTest(op: string, prop: Option<string>, valueStr: string) {
    match op
    case "eq" => prop == Some(valueStr)
    case "neq" => prop != Some(valueStr)
    case "like" => Contains(prop.GetOr(""), valueStr)
    case _ => true
  }

  /** Whether one record passes a filter on target `t` with the (lower-case) operator code `opLower`. */
  predicate TargetKeeps(t: Target, opLower: string, value: Option<Obj>, x: Item)
    requires t.StringTarget? ==> value.Some?
  {
    match t
    case NoTarget => true
    case NumericTarget(prop, n) => NumericTest(opLower, IntSelector(x, prop), n)
    case StringTarget(prop) => StringTest(opLower, StringSelector(x, prop), ToText(value.value).GetOr(""))
  }

  /** Whether one record passes one filter: the reference reading of `ApplyFilter`, record by record. */
  predicate Keeps(field: Option<string>, op: string, value: Option<Obj>, x: Item) {
    TargetKeeps(Resolve(field, value), Lower(op), value, x)
  }

  lemma EqualityCodesAreLower()
    ensures Lower("eq") == "eq" && Lower("neq") == "neq"
  {
    LowerNoCapitals("eq");
    LowerNoCapitals("neq");
  }

  /** For an operator code already in lower case, `Keeps` is the target's test with that code. */
  lemma KeepsCode(field: Option<string>, op: string, value: Option<Obj>, x: Item)
    requires Lower(op) == op
    ensures Keeps(field, op, value, x) == TargetKeeps(Resolve(field, value), op, value, x)
  {
  }

  /** `ApplyFilter` is a `Where` on the per-record test `Keeps`: it never adds, duplicates or reorders records. */
  lemma ApplyFilterIsWhere(query: seq<Item>, field: Option<string>, op: string, value: Option<Obj>)
    ensures ApplyFilter(query, field, op, value) == Where(query, x => Keeps(field, op, value, x))
  {
    match Resolve(field, value)
    case NoTarget =>
      WhereAll(query, x => Keeps(field, op, value, x));
    case NumericTarget(prop, n) =>
      NumericTargetIsWhere(query, field, op, value, prop, n);
    case StringTarget(prop) =>
      StringTargetIsWhere(query, field, op, value, prop);
  }

  lemma NumericTargetIsWhere(query: seq<Item>, field: Option<string>, op: string, value: Option<Obj>, prop: string, n: int)
    requires Resolve(field, value) == NumericTarget(prop, n)
    ensures ApplyFilter(query, field, op, value) == Where(query, x => Keeps(field, op, value, x))
  {
    var selector: Item -> int := p => IntSelector(p, prop);
    var o := Lower(op);
    calc {
      ApplyFilter(query, field, op, value);
      ApplyNumericFilter(query, selector, o, n);
      Where(query, x => NumericTest(o, selector(x), n));
      { assert forall x :: NumericTest(o, selector(x), n) == Keeps(field, op, value, x);
        WhereExtensional(query, x => NumericTest(o, selector(x), n), x => Keeps(field, op, value, x)); }
      Where(query, x => Keeps(field, op, value, x));
    }
  }

  lemma StringTargetIsWhere(query: seq<Item>, field: Option<string>, op: string, value: Option<Obj>, prop: string)
    requires Resolve(field, value) == StringTarget(prop)
    ensures ApplyFilter(query, field, op, value) == Where(query, x => Keeps(field, op, value, x))
  {
    var selector := p => StringSelector(p, prop);
    var o := Lower(op);
    var v := ToText(value.value).GetOr("");
    var test := x => StringTest(o, selector(x), v);
    calc {
      ApplyFilter(query, field, op, value);
      ApplyStringFilter(query, selector, o, value.value);
      Where(query, test);
      { assert forall x :: test(x) == Keeps(field, op, value, x);
        WhereExtensional(query, test, x => Keeps(field, op, value, x)); }
      Where(query, x => Keeps(field, op, value, x));
    }
  }

  /** The result is a subsequence of the input, and it holds each record exactly as often as the input does if the record passes, and never otherwise. */
  lemma ApplyFilterKeepsExactly(query: seq<Item>, field: Option<string>, op: string, value: Option<Obj>, x: Item)
    ensures IsSubsequence(ApplyFilter(query, field, op, value), query)
    ensures multiset(ApplyFilter(query, field, op, value))[x]
         == if Keeps(field, op, value, x) then multiset(query)[x] else 0
  {
    ApplyFilterIsWhere(query, field, op, value);
    WhereSubsequence(query, y => Keeps(field, op, value, y));
    WhereCount(query, y => Keeps(field, op, value, y), x);
  }

  /** Field names are case-insensitive: "AGE", "Age" and "age" filter alike. */
  lemma FieldIgnoresCase(query: seq<Item>, f: string, g: string, op: string, value: Option<Obj>)
    requires Lower(f) == Lower(g)
    ensures ApplyFilter(query, Some(f), op, value) == ApplyFilter(query, Some(g), op, value)
  {
    LowerPreservesWhiteSpace(f);
    LowerPreservesWhiteSpace(g);
  }

  /** A string is blank exactly when its lower-case form is. */
  lemma LowerPreservesWhiteSpace(s: string)
    ensures IsNullOrWhiteSpace(Some(s)) == IsNullOrWhiteSpace(Some(Lower(s)))
  {
  }

  /** The property each recognised (lower-case) field name reads. */
  function PropertyOf(fieldLower: string): string {
    match fieldLower
    case "id" => "Id"
    case "age" => "Age"
    case "name" => "Name"
    case "email" => "Email"
    case _ => "Department"
  }

  /** The dispatch of a recognised field name, whatever its case, given a non-null value. */
  lemma ResolveKnownField(field: string, value: Option<Obj>)
    requires value.Some? && Lower(field) in NumericFields + StringFields
    ensures Lower(field) in StringFields ==> Resolve(Some(field), value) == StringTarget(PropertyOf(Lower(field)))
    ensures Lower(field) in NumericFields && TryParseInt(value).Some?
        ==> Resolve(Some(field), value) == NumericTarget(PropertyOf(Lower(field)), TryParseInt(value).value)
    ensures Lower(field) in NumericFields && TryParseInt(value).None? ==> Resolve(Some(field), value) == NoTarget
  {
    KnownFieldNotBlank(field);
    assert !IsNullOrWhiteSpace(Some(field));
  }

  /** A recognised field name is never blank: its first character folds to a letter. */
  lemma KnownFieldNotBlank(field: string)
    requires Lower(field) in NumericFields + StringFields
    ensures |field| > 0 && !IsWhiteSpace(field[0])
  {
    var f := Lower(field);
    assert |f| > 0;
    assert f[0] == LowerChar(field[0]);
    assert f[0] in {'i', 'a', 'n', 'e', 'd'};
  }

  /** A field name outside id, age, name, email and department, in any case, leaves the records alone. */
  lemma UnknownFilterFieldIsNoOp(query: seq<Item>, field: string, op: string, value: Option<Obj>)
    requires Lower(field) !in NumericFields + StringFields
    ensures ApplyFilter(query, Some(field), op, value) == query
  {
  }

  /** For "id" and "age", a value whose text is not an `int` leaves the records alone. */
  lemma UnparsableNumericIsNoOp(query: seq<Item>, field: string, op: string, value: Option<Obj>)
    requires Lower(field) in NumericFields && TryParseInt(value).None?
    ensures ApplyFilter(query, Some(field), op, value) == query
  {
    if value.Some? {
      ResolveKnownField(field, value);
    }
  }

  /** For "id" and "age", an operator other than the six comparisons ("like", "in", "nin", ...) leaves the records alone. */
  lemma NonNumericOpIsNoOp(query: seq<Item>, field: string, op: string, value: Option<Obj>)
    requires Lower(field) in NumericFields && Lower(op) !in NumericOps
    ensures ApplyFilter(query, Some(field), op, value) == query
  {
    if value.Some? {
      ResolveKnownField(field, value);
      if TryParseInt(value).Some? {
        NumericOpNoOp(query, p => IntSelector(p, PropertyOf(Lower(field))), Lower(op), TryParseInt(value).value);
      }
    }
  }

  lemma NumericOpNoOp(query: seq<Item>, selector: Item -> int, op: string, value: int)
    requires op !in NumericOps
    ensures ApplyNumericFilter(query, selector, op, value) == query
  {
  }

  /** For the string fields, an operator other than "eq", "neq" and "like" ("in", "nin", "gt", ...) leaves the records alone. */
  lemma NonStringOpIsNoOp(query: seq<Item>, field: string, op: string, value: Option<Obj>)
    requires Lower(field) in StringFields && Lower(op) !in StringOps
    ensures ApplyFilter(query, Some(field), op, value) == query
  {
    if value.Some? {
      ResolveKnownField(field, value);
      StringOpNoOp(query, p => StringSelector(p, PropertyOf(Lower(field))), Lower(op), value.value);
    }
  }

  lemma StringOpNoOp(query: seq<Item>, selector: Item -> Option<string>, op: string, value: Obj)
    requires op !in StringOps
    ensures ApplyStringFilter(query, selector, op, value) == query
  {
  }

  /** A numeric comparison keeps exactly the records whose key (0 for a null record or a missing or non-`int` property) compares as asked. */
  lemma NumericFilterKeeps(query: seq<Item>, field: string, op: string, value: Option<Obj>, n: int, x: Item)
    requires Lower(field) in NumericFields && TryParseInt(value) == Some(n)
    ensures multiset(ApplyFilter(query, Some(field), op, value))[x]
         == if NumericTest(Lower(op), IntSelector(x, PropertyOf(Lower(field))), n) then multiset(query)[x] else 0
  {
    ResolveKnownField(field, value);
    ApplyFilterKeepsExactly(query, Some(field), op, value, x);
  }

  /** A string filter keeps exactly the records whose property (null for a missing or non-string one, "" for a null record) passes the test. */
  lemma StringFilterKeeps(query: seq<Item>, field: string, op: string, value: Obj, x: Item)
    requires Lower(field) in StringFields
    ensures multiset(ApplyFilter(query, Some(field), op, Some(value)))[x]
         == if StringTest(Lower(op), StringSelector(x, PropertyOf(Lower(field))), ToText(value).GetOr(""))
            then multiset(query)[x] else 0
  {
    ResolveKnownField(field, Some(value));
    ApplyFilterKeepsExactly(query, Some(field), op, Some(value), x);
  }

  /** A string "eq" never keeps a non-null record whose property is missing, null or not a string. */
  lemma MissingStringNeverEqual(query: seq<Item>, field: string, value: Obj, x: Item)
    requires Lower(field) in StringFields
    requires x.Item? && GetStringProperty(x.props, PropertyOf(Lower(field))).None?
    ensures x !in ApplyFilter(query, Some(field), "eq", Some(value))
  {
    LowerNoCapitals("eq");
    StringFilterKeeps(query, field, "eq", value, x);
  }

  /** "like" compares with case, whatever the operator's documentation says: "AL" does not select "Alice". */
  lemma LikeIsCaseSensitive()
    ensures ApplyFilter([Item(map["Name" := Some(StrObj("Alice"))])], Some("name"), "like", Some(StrObj("AL"))) == []
  {
    var alice := Item(map["Name" := Some(StrObj("Alice"))]);
    LowerNoCapitals("name");
    LowerNoCapitals("like");
    assert !Contains("Alice", "AL") by {
      forall i | 0 <= i <= |"Alice"| ensures !OccursAt("Alice", "AL", i) {
        if 0 <= i <= 3 { assert "Alice"[i] != 'A' || "Alice"[i + 1] != 'L'; }
      }
    }
    StringFilterKeeps([alice], "name", "like", StrObj("AL"), alice);
    assert alice !in ApplyFilter([alice], Some("name"), "like", Some(StrObj("AL")));
  }

  /** For a filter in force, "eq" and "neq" on the same field and value split the records between them. */
  lemma EqualAndNotEqualPartition(query: seq<Item>, field: Option<string>, value: Option<Obj>)
    requires Resolve(field, value) != NoTarget
    ensures multiset(ApplyFilter(query, field, "eq", value)) + multiset(ApplyFilter(query, field, "neq", value)) == multiset(query)
    ensures multiset(ApplyFilter(query, field, "eq", value)) * multiset(ApplyFilter(query, field, "neq", value)) == multiset{}
  {
    var eq := x => Keeps(field, "eq", value, x);
    var neq := x => Keeps(field, "neq", value, x);
    ApplyFilterIsWhere(query, field, "eq", value);
    ApplyFilterIsWhere(query, field, "neq", value);
    forall x ensures neq(x) == !eq(x) {
      NotEqualIsNegation(field, value, x);
    }
    WherePartition(query, eq, neq);
  }

  /** For a filter in force, a record passes "neq" exactly when it fails "eq". */
  lemma NotEqualIsNegation(field: Option<string>, value: Option<Obj>, x: Item)
    requires Resolve(field, value) != NoTarget
    ensures Keeps(field, "neq", value, x) == !Keeps(field, "eq", value, x)
  {
    EqualityCodesAreLower();
    KeepsCode(field, "neq", value, x);
    KeepsCode(field, "eq", value, x);
    TargetNotEqualIsNegation(Resolve(field, value), value, x);
  }

  lemma TargetNotEqualIsNegation(t: Target, value: Option<Obj>, x: Item)
    requires t != NoTarget && (t.StringTarget? ==> value.Some?)
    ensures TargetKeeps(t, "neq", value, x) == !TargetKeeps(t, "eq", value, x)
  {
  }

  /** Applying a filter to its own result changes nothing more. */
  lemma ApplyFilterIdempotent(query: seq<Item>, field: Option<string>, op: string, value: Option<Obj>)
    ensures ApplyFilter(ApplyFilter(query, field, op, value), field, op, value) == ApplyFilter(query, field, op, value)
  {
    var keep := x => Keeps(field, op, value, x);
    ApplyFilterIsWhere(query, field, op, value);
    ApplyFilterIsWhere(ApplyFilter(query, field, op, value), field, op, value);
    WhereIdempotent(query, keep);
  }

  // ---------------------------------------------------------------- sort keys

  /** The boxed key a sort expression returns. */
  datatype SortKey = IntKey(n: int) | StrKey(s: string)

  /**
   * `GetSortExpression(field)` applied to a record: the `int` key of "id" and "age", the
   * string key (null read as "") of "name", "email" and "department", and for any other
   * field the key of "id".
   */
  function GetSortExpression(field: string, x: Item): (k: SortKey)
    ensures k.StrKey? <==> Lower(field) in StringFields
    ensures Lower(field) !in NumericFields + StringFields ==> k == IntKey(IntSelector(x, "Id"))
  {
    var f := Lower(field);
    if f == "id" then IntKey(IntSelector(x, "Id"))
    else if f == "name" then StrKey(StringSelector(x, "Name").GetOr(""))
    else if f == "age" then IntKey(IntSelector(x, "Age"))
    else if f == "email" then StrKey(StringSelector(x, "Email").GetOr(""))
    else if f == "department" then StrKey(StringSelector(x, "Department").GetOr(""))
    else IntKey(IntSelector(x, "Id"))
  }

  /** An unrecognised sort field silently sorts by `Id`. */
  lemma UnknownSortFieldUsesId(field: string, x: Item)
    requires Lower(field) !in NumericFields + StringFields
    ensures GetSortExpression(field, x) == GetSortExpression("id", x)
  {
    LowerNoCapitals("id");
  }

  /** A null record sorts with the zero or empty key. */
  lemma NullRecordSortKey(field: string)
    ensures GetSortExpression(field, NullItem) == if Lower(field) in StringFields then StrKey("") else IntKey(0)
  {
  }

  // ---------------------------------------------------------------- global search

  /** One named property matches: it is non-null and its lower-cased text contains `termLower`. */
  predicate FieldMatches(props: map<string, Option<Obj>>, field: string, termLower: string) {
    var v := GetPropertyValue(props, field);
    v.Some? && ToText(v.value).Some? && Contains(Lower(ToText(v.value).value), termLower)
  }

  /** A record passes the search: it is non-null and some listed property matches. */
  predicate SearchMatches(x: Item, fields: seq<string>, termLower: string) {
    x.Item? && exists i :: 0 <= i < |fields| && FieldMatches(x.props, fields[i], termLower)
  }

  /** `ApplyGlobalSearch`: a blank term or no fields keeps everything; otherwise keep the records that match. */
  function ApplyGlobalSearch(query: seq<Item>, searchTerm: Option<string>, fields: seq<string>): (r: seq<Item>)
    ensures IsNullOrWhiteSpace(searchTerm) || fields == [] ==> r == query
  {
    if IsNullOrWhiteSpace(searchTerm) || |fields| == 0 then query
    else
      var searchLower := Lower(searchTerm.value);
      Where(query, x => SearchMatches(x, fields, searchLower))
  }

  /** Whether a record survives the search; the reference reading of `ApplyGlobalSearch`. */
  predicate SearchKeeps(searchTerm: Option<string>, fields: seq<string>, x: Item) {
    IsNullOrWhiteSpace(searchTerm) || fields == [] || SearchMatches(x, fields, Lower(searchTerm.value))
  }

  lemma GlobalSearchIsWhere(query: seq<Item>, searchTerm: Option<string>, fields: seq<string>)
    ensures ApplyGlobalSearch(query, searchTerm, fields) == Where(query, x => SearchKeeps(searchTerm, fields, x))
  {
    if IsNullOrWhiteSpace(searchTerm) || |fields| == 0 {
      WhereAll(query, x => SearchKeeps(searchTerm, fields, x));
    } else {
      var t := Lower(searchTerm.value);
      WhereExtensional(query, x => SearchMatches(x, fields, t), x => SearchKeeps(searchTerm, fields, x));
    }
  }

  /** An active search keeps, in order, exactly the non-null records with a listed property whose text contains the term in any case. */
  lemma GlobalSearchKeepsExactly(query: seq<Item>, searchTerm: Option<string>, fields: seq<string>, x: Item)
    requires !IsNullOrWhiteSpace(searchTerm) && fields != []
    ensures IsSubsequence(ApplyGlobalSearch(query, searchTerm, fields), query)
    ensures multiset(ApplyGlobalSearch(query, searchTerm, fields))[x]
         == if SearchMatches(x, fields, Lower(searchTerm.value)) then multiset(query)[x] else 0
    ensures x.NullItem? ==> x !in ApplyGlobalSearch(query, searchTerm, fields)
  {
    var keep := y => SearchMatches(y, fields, Lower(searchTerm.value));
    WhereSubsequence(query, keep);
    WhereCount(query, keep, x);
    WhereMembership(query, keep, x);
  }

  /** The search term's case does not matter: "AL" and "al" find the same records. */
  lemma GlobalSearchIgnoresCase(query: seq<Item>, s: string, t: string, fields: seq<string>)
    requires Lower(s) == Lower(t)
    ensures ApplyGlobalSearch(query, Some(s), fields) == ApplyGlobalSearch(query, Some(t), fields)
  {
    LowerPreservesWhiteSpace(s);
    LowerPreservesWhiteSpace(t);
  }

  /** A property whose text contains the term matches whatever the case of either. */
  lemma ContainedTextMatches(props: map<string, Option<Obj>>, field: string, term: string)
    requires field in props && props[field].Some? && ToText(props[field].value).Some?
    requires Contains(ToText(props[field].value).value, term)
    ensures FieldMatches(props, field, Lower(term))
  {
    ContainsLower(ToText(props[field].value).value, term);
  }
}
