# SwiftGrid query model in Dafny

SwiftGrid is a Blazor wrapper for the Tabulator JavaScript table. This project models
the parts of it that decide which rows a grid query returns and how the query travels
between browser and server:

- **Query entities** (`swift_grid_filter.dfy`, `swift_grid_sort.dfy`, `swift_grid_query.dfy`):
  - `SwiftGridFilter` and `SwiftGridSort` are classes. The legacy `Op` and `Dir` string
    properties are a function (the getter) and a method that updates the enum field
    (the setter).
  - `SwiftGridQuery` is a datatype. Beside it sit the documented meaning of a query: the
    filters are ANDed, a blank search applies no search, and sorts are lexicographic
    with each `Descending` entry reversing only its own key.
- **Options** (`swift_grid_options.dfy`): the `SwiftGridOptions` defaults, and
  `Validate()` as a function that returns `Pass` or the `ArgumentException` it throws.
- **Demo query helper** (`query_test_helper.dfy`, `records.dfy`):
  - `ApplyFilter` with its numeric and string branches, `ApplyGlobalSearch`,
    `GetSortExpression`, `GetPropertyValue` and `TryParseInt`;
  - reflection is replaced by an explicit property map per record;
  - `int.TryParse` and `Int32.ToString` are written out in `text.dfy`.
- **Browser script** (`grid_script.dfy`, `grid_registry.dfy`):
  - `getProperty`, `normalizeFieldName` and `setPropertyIfNotNull`, the last a method on
    a mutable `JsObject`;
  - `convertPaginationOptions`, a method that writes into the table options object;
  - `FILTER_TYPE_MAP` and `mapFilterTypeToOperator`;
  - `getSortInfo`, `getFilterInfo`, `getPaginationInfo` and `getQueryState`;
  - the row predicate of `searchAll` (a loop with early return) and its field-collecting loop;
  - the registry of tables: a class whose `SearchAll` and `DestroyTable` methods update
    the `tables` map.

`seqs.dfy` holds LINQ `Where` / `Array.prototype.filter` on sequences and its laws.
`text.dfy` holds ASCII case folding, ordinal substring search, the .NET and JavaScript
whitespace sets, and `Trim`. `wrappers.dfy` holds `Option` and `Outcome`.

Where documentation and code disagree, the model follows the code:
`SwiftGrid/Entities/FilterOperator.cs:22` calls `Like` case-insensitive.
`SwiftGrid.Demo/Components/Pages/QueryTestHelper.cs:93` compares with case, so the model
does too. `QueryHelper.LikeIsCaseSensitive` shows that "AL" does not select "Alice".

## Model

| member | source | states |
|---|---|---|
| Text.Lower | SwiftGrid.Demo/Components/Pages/QueryTestHelper.cs:40-41 | The result has the input's length and contains no capital letter A-Z. |
| Text.LowerIdempotent | SwiftGrid/Entities/SwiftGridFilter.cs:81 | Lowering twice is lowering once, so a lowered code lowers to itself again. |
| Text.ContainsLower | SwiftGrid.Demo/Components/Pages/QueryTestHelper.cs:139 | If `s` contains `sub`, then `Lower(s)` contains `Lower(sub)`. |
| Text.Trim | SwiftGrid/wwwroot/js/swiftgrid.js:669 | The result is no longer than the input and neither starts nor ends with whitespace; it is "" exactly when every character is whitespace. |
| Text.NullOrWhiteSpaceIsTrimEmpty | SwiftGrid.Demo/Components/Pages/QueryTestHelper.cs:35 | `IsNullOrWhiteSpace` of a string holds exactly when its .NET `Trim()` is empty. |
| Text.NatToString | SwiftGrid.Demo/Components/Pages/QueryTestHelper.cs:171 | `ToString()` of a number is a non-empty string of decimal digits. |
| Text.DigitsValueOfNatToString | SwiftGrid.Demo/Components/Pages/QueryTestHelper.cs:171 | Reading the digits of a number's text gives the number back. |
| Text.TryParseInt32 | SwiftGrid.Demo/Components/Pages/QueryTestHelper.cs:171 | A null string never parses, and a string that parses has a character that is not whitespace. |
| Text.ParseIntToString | SwiftGrid.Demo/Components/Pages/QueryTestHelper.cs:171 | `int.TryParse` of an `int`'s own `ToString()`, negative numbers included, succeeds with that `int`. |
| Text.ParseNatToString | SwiftGrid.Demo/Components/Pages/QueryTestHelper.cs:171 | The digits of a natural number up to `int.MaxValue` parse to it. |
| Text.ParseNegative | SwiftGrid.Demo/Components/Pages/QueryTestHelper.cs:171 | "-" and the digits of m, for 0 < m <= 2^31, parse to -m. |
| Text.ParseNull | SwiftGrid.Demo/Components/Pages/QueryTestHelper.cs:171 | A null string does not parse. |
| Text.ParseRejectsLetters | SwiftGrid.Demo/Components/Pages/QueryTestHelper.cs:171 | "notanumber" does not parse. |
| Seqs.WhereSubsequence | SwiftGrid.Demo/Components/Pages/QueryTestHelper.cs:68-73 | A `Where` result is a subsequence of its input: elements are only deleted, never reordered. |
| Seqs.WhereCount | SwiftGrid.Demo/Components/Pages/QueryTestHelper.cs:68-73 | `Where` keeps every occurrence of an accepted element and none of a rejected one. |
| Seqs.WhereMembership | SwiftGrid.Demo/Components/Pages/QueryTestHelper.cs:68-73 | An element is in a `Where` result exactly when it is in the input and accepted. |
| Seqs.WhereIdempotent | SwiftGrid/Entities/SwiftGridQuery.cs:77-82 | Filtering a result again by the same predicate changes nothing. |
| Seqs.WhereWhere | SwiftGrid/Entities/SwiftGridQuery.cs:77-82 | Two `Where`s in a row are one `Where` on the conjunction. |
| Seqs.WherePartition | SwiftGrid.Demo/Components/Pages/QueryTestHelper.cs:68-69 | A predicate and its complement split the input's multiset into two disjoint parts. |
| Seqs.WhereAppend | SwiftGrid/wwwroot/js/swiftgrid.js:415-416 | `filter` distributes over concatenation. |
| Records.ToText | SwiftGrid.Demo/Components/Pages/QueryTestHelper.cs:87 | `ToString()` of an `int` or a string is never null; only another object's override can return null. |
| QueryHelper.GetPropertyValue | SwiftGrid.Demo/Components/Pages/QueryTestHelper.cs:148-154 | A property the record's type lacks reads as null. |
| QueryHelper.TypedPropertyReadBack | SwiftGrid.Demo/Components/Pages/QueryTestHelper.cs:148-163 | A property set to an `int` or a string reads back as that value through the reader of its type, and as 0 or null through the other reader or when it is null. |
| QueryHelper.OtherPropertyIgnored | SwiftGrid.Demo/Components/Pages/QueryTestHelper.cs:148-163 | Reading a property does not depend on any other property of the record. |
| QueryHelper.TryParseInt | SwiftGrid.Demo/Components/Pages/QueryTestHelper.cs:168-172 | A null value never parses. |
| QueryHelper.TryParseIntOfInt | SwiftGrid.Demo/Components/Pages/QueryTestHelper.cs:168-172 | A boxed `int`, and the string of its decimal text, both parse to that `int`. |
| QueryHelper.Resolve | SwiftGrid.Demo/Components/Pages/QueryTestHelper.cs:35-53 | A null value or a null or blank field selects no filter, and a string-field filter always has a value (a field outside the five known names: `QueryHelper.UnknownFilterFieldIsNoOp`). |
| QueryHelper.ApplyFilter | SwiftGrid.Demo/Components/Pages/QueryTestHelper.cs:29-54 | When the field and value select nothing (null value, blank or unknown field, unparsable number), the input is returned unchanged. |
| QueryHelper.ApplyNumericFilter | SwiftGrid.Demo/Components/Pages/QueryTestHelper.cs:59-76 | The numeric filter is `Where` on the comparison its code names; an unknown code accepts every record. |
| QueryHelper.ApplyStringFilter | SwiftGrid.Demo/Components/Pages/QueryTestHelper.cs:81-96 | The string filter is `Where` on exact equality, inequality or containment with `value.ToString() ?? ""`; an unknown code accepts every record. |
| QueryHelper.ApplyFilterIsWhere | SwiftGrid.Demo/Components/Pages/QueryTestHelper.cs:43-53 | `ApplyFilter` is `Where` on the per-record reference test `Keeps`. |
| QueryHelper.NumericTargetIsWhere | SwiftGrid.Demo/Components/Pages/QueryTestHelper.cs:45-48 | For "id"/"age" with a parsable value, `ApplyFilter` is `Where` on `Keeps`. |
| QueryHelper.StringTargetIsWhere | SwiftGrid.Demo/Components/Pages/QueryTestHelper.cs:49-51 | For "name"/"email"/"department", `ApplyFilter` is `Where` on `Keeps`. |
| QueryHelper.ApplyFilterKeepsExactly | SwiftGrid.Demo/Components/Pages/QueryTestHelper.cs:43-53 | The result is an order-preserving subsequence, and holds each record as often as the input does if it passes, and never otherwise. |
| QueryHelper.FieldIgnoresCase | SwiftGrid.Demo/Components/Pages/QueryTestHelper.cs:40 | Field names that agree after lowering filter alike ("AGE" and "age"). |
| QueryHelper.LowerPreservesWhiteSpace | SwiftGrid.Demo/Components/Pages/QueryTestHelper.cs:35-40 | A field is blank exactly when its lower-case form is. |
| QueryHelper.ResolveKnownField | SwiftGrid.Demo/Components/Pages/QueryTestHelper.cs:43-51 | Each recognised field name, in any case, selects its property; "id"/"age" select nothing when the value does not parse. |
| QueryHelper.KnownFieldNotBlank | SwiftGrid.Demo/Components/Pages/QueryTestHelper.cs:35 | A recognised field name is never blank, so the null/blank guard lets it through. |
| QueryHelper.UnknownFilterFieldIsNoOp | SwiftGrid.Demo/Components/Pages/QueryTestHelper.cs:52 | A field outside id, age, name, email and department, in any case, leaves the records unchanged. |
| QueryHelper.UnparsableNumericIsNoOp | SwiftGrid.Demo/Components/Pages/QueryTestHelper.cs:45-48 | For "id"/"age", a value whose text is not an `int` leaves the records unchanged. |
| QueryHelper.NonNumericOpIsNoOp | SwiftGrid.Demo/Components/Pages/QueryTestHelper.cs:74 | For "id"/"age", a code outside eq/neq/gt/gte/lt/lte ("like", "in") leaves the records unchanged. |
| QueryHelper.NumericOpNoOp | SwiftGrid.Demo/Components/Pages/QueryTestHelper.cs:74 | The numeric filter's fallback arm returns its input. |
| QueryHelper.NonStringOpIsNoOp | SwiftGrid.Demo/Components/Pages/QueryTestHelper.cs:94 | For the string fields, a code outside eq/neq/like leaves the records unchanged. |
| QueryHelper.StringOpNoOp | SwiftGrid.Demo/Components/Pages/QueryTestHelper.cs:94 | The string filter's fallback arm returns its input. |
| QueryHelper.NumericFilterKeeps | SwiftGrid.Demo/Components/Pages/QueryTestHelper.cs:46-48 | A numeric filter keeps exactly the records whose `int` key (0 for a null record or a missing or non-`int` property) passes the comparison with the parsed value. |
| QueryHelper.StringFilterKeeps | SwiftGrid.Demo/Components/Pages/QueryTestHelper.cs:87-93 | A string filter keeps exactly the records whose property (null if missing or not a string, "" for a null record) passes eq, neq or like. |
| QueryHelper.MissingStringNeverEqual | SwiftGrid.Demo/Components/Pages/QueryTestHelper.cs:91 | String "eq" never keeps a record whose property is missing, null or not a string. |
| QueryHelper.LikeIsCaseSensitive | SwiftGrid.Demo/Components/Pages/QueryTestHelper.cs:93 | "like" with "AL" on the name "Alice" keeps nothing. |
| QueryHelper.EqualAndNotEqualPartition | SwiftGrid.Demo/Components/Pages/QueryTestHelper.cs:68-69 | For a filter in force, the "eq" and "neq" results are disjoint and together make up the input. |
| QueryHelper.NotEqualIsNegation | SwiftGrid.Demo/Components/Pages/QueryTestHelper.cs:68-69 | For a filter in force, a record passes "neq" exactly when it fails "eq". |
| QueryHelper.TargetNotEqualIsNegation | SwiftGrid.Demo/Components/Pages/QueryTestHelper.cs:91-92 | Per target, the "neq" test is the negation of the "eq" test. |
| QueryHelper.ApplyFilterIdempotent | SwiftGrid.Demo/Components/Pages/QueryTestHelper.cs:66-95 | Applying a filter to its own result changes nothing. |
| QueryHelper.UnknownSortFieldUsesId | SwiftGrid.Demo/Components/Pages/QueryTestHelper.cs:110 | An unrecognised sort field sorts by the `Id` key. |
| QueryHelper.GetSortExpression | SwiftGrid.Demo/Components/Pages/QueryTestHelper.cs:101-112 | The key is a string exactly for "name", "email" and "department" in any case, an `int` otherwise, and an unrecognised field gets the record's `Id` key. |
| QueryHelper.NullRecordSortKey | SwiftGrid.Demo/Components/Pages/QueryTestHelper.cs:105-110 | A null record sorts with key "" for string fields and 0 otherwise. |
| QueryHelper.ApplyGlobalSearch | SwiftGrid.Demo/Components/Pages/QueryTestHelper.cs:122-125 | A null or whitespace term, or no fields, returns the input unchanged. |
| QueryHelper.GlobalSearchIsWhere | SwiftGrid.Demo/Components/Pages/QueryTestHelper.cs:117-143 | The search is `Where` on the per-record reference test `SearchKeeps`. |
| QueryHelper.GlobalSearchKeepsExactly | SwiftGrid.Demo/Components/Pages/QueryTestHelper.cs:127-141 | An active search keeps, in order and with multiplicity, exactly the non-null records where some listed property is non-null and its lowered text contains the lowered term. |
| QueryHelper.GlobalSearchIgnoresCase | SwiftGrid.Demo/Components/Pages/QueryTestHelper.cs:127 | Terms that agree after lowering find the same records. |
| QueryHelper.ContainedTextMatches | SwiftGrid.Demo/Components/Pages/QueryTestHelper.cs:136-139 | A property whose text contains the term, in any case, matches. |
| FilterEntity.OpCode | SwiftGrid/Entities/SwiftGridFilter.cs:68-80 | The getter returns one of the nine short codes and nothing else. |
| FilterEntity.LoweredName | SwiftGrid/Entities/SwiftGridFilter.cs:68 | Each operator's `ToString().ToLowerInvariant()`, member by member. |
| FilterEntity.OpCodeTable | SwiftGrid/Entities/SwiftGridFilter.cs:68-80 | The code each of the nine operators reads as. |
| FilterEntity.OpCodeInjective | SwiftGrid/Entities/SwiftGridFilter.cs:68-80 | Distinct operators read as distinct codes. |
| FilterEntity.ParseOpIgnoresCase | SwiftGrid/Entities/SwiftGridFilter.cs:81 | Texts that agree after lowering set the same operator ("GTE" and "gte"). |
| FilterEntity.ParseOpFallback | SwiftGrid/Entities/SwiftGridFilter.cs:81-92 | Null and any text that is not one of the nine codes set `Equal`. |
| FilterEntity.OpCodesAreLower | SwiftGrid/Entities/SwiftGridFilter.cs:70-79 | The nine codes lower to themselves. |
| FilterEntity.OperatorRoundTrip | SwiftGrid/Entities/SwiftGridFilter.cs:68-93 | Setting `Op` to the getter's output restores the operator, for every operator. |
| FilterEntity.CodeRoundTrip | SwiftGrid/Entities/SwiftGridFilter.cs:68-93 | Setting any casing of a code and reading `Op` back gives the lower-case code. |
| FilterEntity.SwiftGridFilter.constructor | SwiftGrid/Entities/SwiftGridFilter.cs:31-59 | A new filter has `Field` "", `Operator` `Equal` and a null `Value`. |
| FilterEntity.SwiftGridFilter.Op | SwiftGrid/Entities/SwiftGridFilter.cs:68-80 | Reading `Op` gives one of the nine codes, and the one that sets the current operator again. |
| FilterEntity.SwiftGridFilter.SetOp | SwiftGrid/Entities/SwiftGridFilter.cs:81-93 | Assigning `Op` sets the operator the text names and leaves `Field` and `Value` alone. |
| FilterEntity.ReassignOp | SwiftGrid/Entities/SwiftGridFilter.cs:66-93 | `f.Op = f.Op` leaves the filter as it was. |
| SortEntity.DirCode | SwiftGrid/Entities/SwiftGridSort.cs:49 | The getter returns "asc" exactly for `Ascending`, and otherwise "desc". |
| SortEntity.ParseDirCases | SwiftGrid/Entities/SwiftGridSort.cs:50-52 | "DESC" and "Desc" set `Descending`; "descending", "d", "asc" and null set `Ascending`. |
| SortEntity.DirectionRoundTrip | SwiftGrid/Entities/SwiftGridSort.cs:49-52 | `Dir = Dir` restores the direction. |
| SortEntity.DirCodeRoundTrip | SwiftGrid/Entities/SwiftGridSort.cs:49-52 | After any assignment `Dir` reads "desc" or "asc", and assigning that again changes nothing. |
| SortEntity.SwiftGridSort.constructor | SwiftGrid/Entities/SwiftGridSort.cs:29-40 | A new sort has `Field` "" and `Ascending`. |
| SortEntity.SwiftGridSort.Dir | SwiftGrid/Entities/SwiftGridSort.cs:49 | Reading `Dir` gives "asc" exactly when ascending, else "desc", and parsing it back gives the direction. |
| SortEntity.SwiftGridSort.SetDir | SwiftGrid/Entities/SwiftGridSort.cs:50-52 | Assigning `Dir` sets the parsed direction and leaves `Field` alone. |
| SortEntity.ReassignDir | SwiftGrid/Entities/SwiftGridSort.cs:47-53 | `s.Dir = s.Dir` leaves the sort as it was. |
| SortEntity.SetDirTwice | SwiftGrid/Entities/SwiftGridSort.cs:50-52 | Assigning the same text twice is assigning it once. |
| QueryEntity.NewQuery | SwiftGrid/Entities/SwiftGridQuery.cs:39-95 | A new query is on page 1, 10 rows per page, with no sorts, no filters and a null search. |
| QueryEntity.ApplyFilterSpecIsWhere | SwiftGrid/Entities/SwiftGridQuery.cs:85 | One listed filter is `Where` on its per-record test. |
| QueryEntity.ApplyFiltersIsWhere | SwiftGrid/Entities/SwiftGridQuery.cs:77-82 | Applying the filter list is one `Where` on the conjunction of all its filters. |
| QueryEntity.PassesAllCons | SwiftGrid/Entities/SwiftGridQuery.cs:77-82 | Passing every filter of a list is passing its first and every one of the rest. |
| QueryEntity.FiltersAreAnded | SwiftGrid/Entities/SwiftGridQuery.cs:77-82 | A record survives the list, in order and with multiplicity, exactly when it passes every filter. |
| QueryEntity.FilterOrderIrrelevant | SwiftGrid/Entities/SwiftGridQuery.cs:77-82 | Lists with the same filters, in any order or repeated, give the same result. |
| QueryEntity.FilterPermutationIrrelevant | SwiftGrid/Entities/SwiftGridQuery.cs:77-82 | A permutation of the filter list gives the same result. |
| QueryEntity.ApplyFiltersAppend | SwiftGrid/Entities/SwiftGridQuery.cs:77-82 | A list applies as its two halves one after the other. |
| QueryEntity.Evaluate | SwiftGrid/Entities/SwiftGridQuery.cs:77-95 | Filters then search is one `Where` on passing every filter and the search. |
| QueryEntity.BlankSearchIsFilterOnly | SwiftGrid/Entities/SwiftGridQuery.cs:91 | A null, empty or blank search makes the result the filter-only result. |
| QueryEntity.NewQueryKeepsAll | SwiftGrid/Entities/SwiftGridQuery.cs:39-95 | A new query returns every record. |
| QueryEntity.EvaluateKeepsExactly | SwiftGrid/Entities/SwiftGridQuery.cs:77-95 | Filters then search keep, in order and with multiplicity, exactly the records that pass every filter and the search. |
| QueryEntity.CompareStrings | SwiftGrid/Entities/SwiftGridQuery.cs:61-66 | A comparison yields -1, 0 or 1. |
| QueryEntity.CompareStringsAntisymmetric | SwiftGrid/Entities/SwiftGridQuery.cs:61-66 | Swapping the strings negates the comparison. |
| QueryEntity.CompareStringsZeroIff | SwiftGrid/Entities/SwiftGridQuery.cs:61-66 | Strings tie exactly when they are equal. |
| QueryEntity.CompareStringsTransitive | SwiftGrid/Entities/SwiftGridQuery.cs:61-66 | The string order is transitive. |
| QueryEntity.CompareKeys | SwiftGrid.Demo/Components/Pages/QueryTestHelper.cs:101-111 | Comparing two sort keys yields -1, 0 or 1. |
| QueryEntity.CompareKeysOrder | SwiftGrid.Demo/Components/Pages/QueryTestHelper.cs:101-111 | Sort keys are totally ordered: antisymmetric, zero only for equal keys, transitive. |
| QueryEntity.CompareBySorts | SwiftGrid/Entities/SwiftGridQuery.cs:61-66 | The lexicographic comparison yields -1, 0 or 1. |
| QueryEntity.FirstDifference | SwiftGrid/Entities/SwiftGridQuery.cs:61-66 | Every entry before the index ties, and the entry at the index, if any, does not. |
| QueryEntity.CompareIsFirstDifference | SwiftGrid/Entities/SwiftGridQuery.cs:61-66 | The first entry decides unless it ties, then the next: the result is the first differing entry's comparison, or 0. |
| QueryEntity.OppositeNegates | SwiftGrid/Entities/SwiftGridQuery.cs:61-66 | Flipping one entry's direction negates that entry's comparison. |
| QueryEntity.FlipDirectionAt | SwiftGrid/Entities/SwiftGridQuery.cs:61-66 | Flipping entry k's direction reverses the comparison when k is the first differing entry, and changes nothing otherwise. |
| QueryEntity.CompareReflexive | SwiftGrid/Entities/SwiftGridQuery.cs:61-66 | Every record ties with itself. |
| QueryEntity.CompareAntisymmetric | SwiftGrid/Entities/SwiftGridQuery.cs:61-66 | Swapping the records negates the comparison. |
| QueryEntity.CompareByOrder | SwiftGrid/Entities/SwiftGridQuery.cs:61-66 | One entry ties records exactly when their keys are equal, and orders them transitively. |
| QueryEntity.CompareTransitive | SwiftGrid/Entities/SwiftGridQuery.cs:61-66 | The lexicographic order is transitive. |
| OptionsEntity.Violations | SwiftGrid/Entities/SwiftGridOptions.cs:112-123 | There are at most three rule failures. |
| OptionsEntity.Validate | SwiftGrid/Entities/SwiftGridOptions.cs:112-123 | Accepts exactly when no rule fails; otherwise throws the first failure in check order. |
| OptionsEntity.DefaultsAreValid | SwiftGrid/Entities/SwiftGridOptions.cs:28-61 | Default options pass `Validate()`. |
| OptionsEntity.ValidateAcceptsIff | SwiftGrid/Entities/SwiftGridOptions.cs:112-123 | Accepts exactly when none of the three conditions holds. |
| OptionsEntity.ValidateNamesParameter | SwiftGrid/Entities/SwiftGridOptions.cs:115-122 | Any exception names PaginationSize, PaginationMode or PaginationButtonCount. |
| OptionsEntity.ValidateReportsInOrder | SwiftGrid/Entities/SwiftGridOptions.cs:114-122 | A size failure is reported first, and a mode failure before a button-count failure. |
| OptionsEntity.PageSizeIgnoredWithoutPagination | SwiftGrid/Entities/SwiftGridOptions.cs:114-115 | With pagination off, any page size validates like no size. |
| OptionsEntity.PageSizeRule | SwiftGrid/Entities/SwiftGridOptions.cs:114-115 | No size passes; size 0 fails when pagination is on; size 1 passes. |
| OptionsEntity.PaginationModeRule | SwiftGrid/Entities/SwiftGridOptions.cs:117-119 | A null or blank mode passes; "Local" fails because the check has case. |
| OptionsEntity.ValidateReadsOnlyPagination | SwiftGrid/Entities/SwiftGridOptions.cs:112-123 | Options that agree on the four properties the rules read validate alike. |
| GridScript.Or | SwiftGrid/wwwroot/js/swiftgrid.js:384 | `a \|\| b` is one of its operands, and it is truthy exactly when either operand is. |
| GridScript.GetProperty | SwiftGrid/wwwroot/js/swiftgrid.js:60-64 | The result is undefined exactly when both spellings and the default are undefined. |
| GridScript.EitherSpellingReadsAlike | SwiftGrid/wwwroot/js/swiftgrid.js:60-64 | An option sent only under its PascalCase name reads the same as one sent only under its camelCase name. |
| GridScript.GetPropertyDefined | SwiftGrid/wwwroot/js/swiftgrid.js:60-64 | With a defined default the result is never undefined. |
| GridScript.NormalizeFieldName | SwiftGrid/wwwroot/js/swiftgrid.js:92-95 | Empty and non-string input is returned unchanged; otherwise only the first character is lowered and the rest is kept. |
| GridScript.NormalizeIdempotent | SwiftGrid/wwwroot/js/swiftgrid.js:92-95 | Normalising twice is normalising once. |
| GridScript.NormalizeKeepsFolding | SwiftGrid/wwwroot/js/swiftgrid.js:92-95 | Normalising does not change a name's lower-case form. |
| GridScript.SetIfNotNullEffect | SwiftGrid/wwwroot/js/swiftgrid.js:98-104 | Only `key` can change: it gets a non-null value, else a non-null default, else the target is unchanged. |
| GridScript.JsObject.constructor | SwiftGrid/wwwroot/js/swiftgrid.js:98 | The object starts with the given properties. |
| GridScript.JsObject.SetPropertyIfNotNull | SwiftGrid/wwwroot/js/swiftgrid.js:98-104 | The properties become `SetIfNotNull` of the old ones, an undefined default counting as null. |
| GridScript.ConvertPaginationOptions | SwiftGrid/wwwroot/js/swiftgrid.js:215-239 | The table options become `ConvertedPagination` of the old ones. |
| GridScript.LastWritesKeep | SwiftGrid/wwwroot/js/swiftgrid.js:235-238 | The last two writes touch only the size-selector and button-count keys. |
| GridScript.PaginationOffAddsNothing | SwiftGrid/wwwroot/js/swiftgrid.js:216-217 | Falsy or missing pagination adds no key. |
| GridScript.PaginationKeepsOtherKeys | SwiftGrid/wwwroot/js/swiftgrid.js:215-239 | Keys other than the six pagination keys are never touched. |
| GridScript.PaginationModeWritten | SwiftGrid/wwwroot/js/swiftgrid.js:219 | `pagination: true` becomes "local"; another truthy value is copied. |
| GridScript.PaginationCounterWritten | SwiftGrid/wwwroot/js/swiftgrid.js:226-233 | A `true` counter becomes "rows", `false` stays `false`, another value is copied, and null leaves the key as it was. |
| GridScript.PaginationSizeWritten | SwiftGrid/wwwroot/js/swiftgrid.js:221-222 | A size under either spelling is copied; a missing or null one writes nothing. |
| GridScript.MapFilterTypeToOperator | SwiftGrid/wwwroot/js/swiftgrid.js:383-385 | A mapped type gives its entry, an unmapped truthy one passes through, and a falsy one gives "eq"; the result is always truthy. |
| GridScript.FilterTypeMapAgreesWithOp | SwiftGrid/wwwroot/js/swiftgrid.js:24-29 | Every table value is one of the nine codes the `Op` setter accepts, and it round-trips through the setter and getter. |
| GridScript.UnmappedFilterTypeIsEqual | SwiftGrid/wwwroot/js/swiftgrid.js:384 | An unmapped type such as "starts" passes through and reaches .NET as `Equal`. |
| GridScript.GetSortInfo | SwiftGrid/wwwroot/js/swiftgrid.js:402-409 | A non-array gives []; otherwise there is one entry per sorter. |
| GridScript.SortInfoEntries | SwiftGrid/wwwroot/js/swiftgrid.js:405-408 | Entry i has `Dir` "desc" exactly when sorter i's dir is "desc", else "asc"; .NET parses it to the same direction; a falsy field becomes "". |
| GridScript.UpperCaseDescIsAscending | SwiftGrid/wwwroot/js/swiftgrid.js:407 | A sorter dir of "DESC" is sent as "asc". |
| GridScript.GetFilterInfo | SwiftGrid/wwwroot/js/swiftgrid.js:412-414 | A non-array gives []. |
| GridScript.FilterInfoEntries | SwiftGrid/wwwroot/js/swiftgrid.js:412-422 | The entries are the reportable filters, in order, translated, and each has a truthy field and operator. |
| GridScript.UnreportableFilterDropped | SwiftGrid/wwwroot/js/swiftgrid.js:416 | A filter with a falsy field or an undefined type is dropped. |
| GridScript.GetPaginationInfo | SwiftGrid/wwwroot/js/swiftgrid.js:388-399 | Page and size are the reported numbers when the page module exists and reports numbers, and 1 and 10 otherwise. |
| GridScript.PagingDefaultsAgree | SwiftGrid/wwwroot/js/swiftgrid.js:21-22 | The browser's fall-back page and size equal a new .NET query's. |
| GridScript.GetQueryState | SwiftGrid/wwwroot/js/swiftgrid.js:425-433 | A falsy search is sent as null, and a truthy one as given. |
| GridScript.SearchPredicate | SwiftGrid/wwwroot/js/swiftgrid.js:696-707 | The loop returns true exactly when some listed column is non-null and its lowered text contains the search text. |
| GridScript.ContainedValueMatches | SwiftGrid/wwwroot/js/swiftgrid.js:692-703 | A value containing the search text in any case matches the lowered text. |
| GridScript.ColumnFields | SwiftGrid/wwwroot/js/swiftgrid.js:680-685 | At most one field per column. |
| GridScript.ColumnFieldsMembership | SwiftGrid/wwwroot/js/swiftgrid.js:680-685 | A name is collected exactly when it is non-empty and some column has it. |
| GridScript.CollectFieldNames | SwiftGrid/wwwroot/js/swiftgrid.js:680-685 | The loop collects the non-empty column fields in column order. |
| GridRegistry.QueryStateKey | SwiftGrid/wwwroot/js/swiftgrid.js:666 | A table's search-state key differs from the table's key. |
| GridRegistry.Registry.constructor | SwiftGrid/wwwroot/js/swiftgrid.js:565 | The registry starts empty. |
| GridRegistry.Registry.DestroyTable | SwiftGrid/wwwroot/js/swiftgrid.js:565-579 | The registry becomes `DestroyState` of the old one. |
| GridRegistry.Registry.SearchAll | SwiftGrid/wwwroot/js/swiftgrid.js:662-724 | The outcome and the new registry are `SearchAllOutcome` and `SearchAllState` of the old registry. |
| GridRegistry.Registry.ClearFilter | SwiftGrid/wwwroot/js/swiftgrid.js:669-677 | The blank branch leaves the registry `ClearSearch` of the old one. |
| GridRegistry.Registry.SetSearchFilter | SwiftGrid/wwwroot/js/swiftgrid.js:696-712 | The active branch leaves the registry `InstallSearch` of the old one. |
| GridRegistry.SearchAllTouchesOnlyItsKeys | SwiftGrid/wwwroot/js/swiftgrid.js:662-724 | Only the table's entry and its search-state entry can change. |
| GridRegistry.SearchAllNeedsTable | SwiftGrid/wwwroot/js/swiftgrid.js:76-89 | An unknown key, or an entry that is not a table, ends in not-found and changes nothing. |
| GridRegistry.ClearedBranch | SwiftGrid/wwwroot/js/swiftgrid.js:669-678 | A blank value over a table clears it. |
| GridRegistry.SearchingBranch | SwiftGrid/wwwroot/js/swiftgrid.js:692-712 | A non-blank value over a table with fields installs the search over those fields with the lowered text. |
| GridRegistry.SearchingOutcome | SwiftGrid/wwwroot/js/swiftgrid.js:692-694 | The outcome names the collected fields and the lowered text. |
| GridRegistry.BlankSearchClears | SwiftGrid/wwwroot/js/swiftgrid.js:669-678 | A blank value removes the row filter, nulls an existing search state, creates none, and keeps the columns. |
| GridRegistry.ActiveSearchInstalls | SwiftGrid/wwwroot/js/swiftgrid.js:692-712 | The row filter becomes the search over exactly the collected fields with the lowered text, and the search state records the value as given. |
| GridRegistry.InstallSearchEffect | SwiftGrid/wwwroot/js/swiftgrid.js:709-712 | The table gets the search filter, and the state records the value unless a table sits under its key. |
| GridRegistry.ClearSearchIdempotent | SwiftGrid/wwwroot/js/swiftgrid.js:669-677 | Clearing a search twice is clearing it once. |
| GridRegistry.InstallSearchIdempotent | SwiftGrid/wwwroot/js/swiftgrid.js:696-712 | Installing the same search twice is installing it once. |
| GridRegistry.NoSearchableColumnsKeepsState | SwiftGrid/wwwroot/js/swiftgrid.js:687-690 | With no named column, the search is not applied and the previous filter and state stay. |
| GridRegistry.SearchAllIdempotent | SwiftGrid/wwwroot/js/swiftgrid.js:662-724 | Searching for the same value again changes nothing more. |
| GridRegistry.ByteOrderMarkIsBlankOnlyInBrowser | SwiftGrid/wwwroot/js/swiftgrid.js:669 | A lone U+FEFF is blank to `trim()` but not to .NET `IsNullOrWhiteSpace`. |
| GridRegistry.DestroyRemovesBoth | SwiftGrid/wwwroot/js/swiftgrid.js:576-577 | Destroying removes the key and its search state, and nothing else. |
| GridRegistry.DestroyIdempotent | SwiftGrid/wwwroot/js/swiftgrid.js:565-579 | Destroying twice is destroying once, and a search after it finds no table. |

## Left out

- QueryHelper.ApplyGlobalSearch: the exceptions of a null `searchableFields` array are not modelled. `.Length` throws at SwiftGrid.Demo/Components/Pages/QueryTestHelper.cs:122. A null field name in the array throws `ArgumentNullException` from `GetProperty` when the result is enumerated (lines 136 and 150). The model's field list is a sequence of non-null strings.
- QueryHelper.GetSortExpression: a null `field` throws a `NullReferenceException` at `field.ToLower()` (SwiftGrid.Demo/Components/Pages/QueryTestHelper.cs:103). The model's field is a non-null string.
- `ApplyFilter` with a null `op` throws a `NullReferenceException` at `op.ToLower()`. The model's `op` is a non-null string.
- QueryEntity.CompareStrings: strings are compared ordinally, by character value and then by length. The caller's `OrderBy` over the `object` keys of `GetSortExpression` uses the default comparer, which is culture-sensitive for strings. There "alice" sorts before "Bob", and the model puts "Bob" first.
- QueryEntity.CompareStringsZeroIff: a tie holds exactly for equal strings only under the ordinal order. A culture comparer can tie unequal strings, such as "\u00C5" and "A\u030A".
- QueryEntity.CompareKeys: string keys are ordered ordinally, as `CompareStrings` does, not as the culture-sensitive default comparer does.
- QueryEntity.CompareKeysOrder: its zero-only-for-equal-keys clause rests on the ordinal string order.
- QueryEntity.CompareByOrder: "one entry ties exactly when the keys are equal" rests on the ordinal string order.
- `ToLower`, `ToLowerInvariant` and `toLowerCase` are modelled as ASCII case folding. The culture-dependent and Unicode mappings are not modelled.
- `In` and `NotIn` set membership is not implemented by the helper. These codes fall through to "unchanged", as the model proves.
- `int.TryParse`: the model covers whitespace, an optional sign, decimal digits and the `int` range. It does not cover the trailing-NUL tolerance of .NET's parser.
- Pagination skip/take and the caller's `OrderBy`/`ThenBy` chain are not in these files. The sort order is stated as a comparison function with its laws, not as a sorting routine.
- `IQueryable` deferred execution, `ToList` and `AsQueryable` are not modelled. Results are sequences.
- .NET reflection is replaced by a property map per record. A property of a non-numeric, non-string type is an `OtherObj` with its `ToString()` text.
- JavaScript numbers are modelled as integers. NaN, fractions and `String(number)` of non-integers are not modelled.
- `FILTER_TYPE_MAP` lookup of inherited keys such as "toString" is not modelled. Only the map's own keys are looked up.
- The Tabulator calls, DOM, `log`, `setTimeout`, clipboard, history and .NET interop calls are left out. They are foreign library calls and UI.
  - `table.destroy()` inside `destroyTable` is one of these.
  - So are `setFilter` and the choice between `clearFilter(true)` and `setFilter(false)` in `searchAll`. The model records only whether the table has no row filter or the search filter.
  - `clearFilter(true)` also clears header filters, which the model does not track.
- `getTableWithValidation` throws when the table is missing or lacks `setFilter`. The model returns the `TableNotFound` outcome and leaves the registry unchanged. An entry that is not a table stands for an object without `setFilter`.
- GridRegistry.Found, GridRegistry.Registry.SearchAll and GridRegistry.Registry.DestroyTable: registry keys are element ids. An element without an id is keyed in the browser by the element object itself, through `getKey` (SwiftGrid/wwwroot/js/swiftgrid.js:54-57). Its table is still found, and every such table shares one search-state key, "[object HTMLDivElement]_queryState". `destroyTable` on any of them deletes that shared entry. The model treats the empty id as "no table" and gives each table its own search-state key.
- GridRegistry.Registry.SearchAll: when a table object sits under the search-state key, the browser writes a `globalSearch` property onto that object. The model leaves that entry unchanged.
- `ClipboardService.cs`, `CellEditedEventArgs.cs` and `SwiftGridColumnDefinition.cs` are not part of this model. They are an interop call and plain data holders.
- The `filterType` argument of `searchAll` and the `SEARCH_CASE_SENSITIVE` switch are not modelled. The first is only logged; the second is a constant `false`, so the model always lowers.
