/**
 * `SwiftGridOptions`: the grid's configuration, its defaults, and `Validate()`, which
 * either returns or throws an `ArgumentException` naming the offending property.
 */
module OptionsEntity {
  import opened Wrappers
  import opened Text
  import opened Records

  datatype SwiftGridOptions = SwiftGridOptions(
    Layout: string,
    Height: Option<string>,
    Selectable: Int32,
    Pagination: bool,
    PaginationSize: Option<Int32>,
    PaginationMode: Option<string>,
    PaginationCounter: Option<bool>,
    PaginationSizeSelector: Option<bool>,
    PaginationButtonCount: Option<Int32>,
    History: bool,
    EditTriggerEvent: Option<string>,
    Clipboard: Option<Obj>,
    ClipboardCopyRowRange: Option<string>,
    EnableRowSelectionCheckbox: bool,
    RowSelectionRange: Option<string>)

  /** `new SwiftGridOptions()`. */
  const DefaultOptions: SwiftGridOptions := SwiftGridOptions(
    Layout := "fitColumns",
    Height := None,
    Selectable := 1,
    Pagination := false,
    PaginationSize := None,
    PaginationMode := Some("local"),
    PaginationCounter := None,
    PaginationSizeSelector := None,
    PaginationButtonCount := None,
    History := false,
    EditTriggerEvent := None,
    Clipboard := None,
    ClipboardCopyRowRange := Some("selected"),
    EnableRowSelectionCheckbox := false,
    RowSelectionRange := Some("active"))

  /** The exception `Validate` throws: the property it names and its message. */
  datatype ArgumentException = ArgumentException(ParamName: string, Message: string)

  /** Rule 1 is broken: pagination is on and a page size of zero or less is set. */
  predicate BadPaginationSize(o: SwiftGridOptions) {
    o.Pagination && o.PaginationSize.Some? && o.PaginationSize.value <= 0
  }

  /** Rule 2 is broken: a mode is given that is neither "local" nor "remote" (compared exactly, with case). */
  predicate BadPaginationMode(o: SwiftGridOptions) {
    !IsNullOrWhiteSpace(o.PaginationMode) && o.PaginationMode.value != "local" && o.PaginationMode.value != "remote"
  }

  /** Rule 3 is broken: a button count below one is set. */
  predicate BadPaginationButtonCount(o: SwiftGridOptions) {
    o.PaginationButtonCount.Some? && o.PaginationButtonCount.value < 1
  }

  /** The three rules' failures, as the exceptions they raise, in the order `Validate` checks them. */
  function Violations(o: SwiftGridOptions): (v: seq<ArgumentException>)
    ensures |v| <= 3
  {
    (if BadPaginationSize(o)
     then [ArgumentException("PaginationSize", "PaginationSize must be greater than 0 when Pagination is enabled.")] else [])
    + (if BadPaginationMode(o)
       then [ArgumentException("PaginationMode", "PaginationMode must be either 'local' or 'remote'.")] else [])
    + (if BadPaginationButtonCount(o)
       then [ArgumentException("PaginationButtonCount", "PaginationButtonCount must be at least 1.")] else [])
  }

  /** `Validate()`: the three checks in order; the first that fails throws. */
  function Validate(o: SwiftGridOptions): (r: Outcome<ArgumentException>)
    ensures r.Pass? <==> Violations(o) == []
    ensures r.Fail? ==> r.error == Violations(o)[0]
  {
    if BadPaginationSize(o) then
      Fail(ArgumentException("PaginationSize", "PaginationSize must be greater than 0 when Pagination is enabled."))
    else if BadPaginationMode(o) then
      Fail(ArgumentException("PaginationMode", "PaginationMode must be either 'local' or 'remote'."))
    else if BadPaginationButtonCount(o) then
      Fail(ArgumentException("PaginationButtonCount", "PaginationButtonCount must be at least 1."))
    else Pass
  }

  /** Freshly constructed options are valid. */
  lemma DefaultsAreValid()
    ensures Validate(DefaultOptions) == Pass
  {
    assert DefaultOptions.PaginationMode.value == "local";
  }

  /** `Validate` accepts exactly the options that break none of the three rules. */
  lemma ValidateAcceptsIff(o: SwiftGridOptions)
    ensures Validate(o) == Pass <==> !BadPaginationSize(o) && !BadPaginationMode(o) && !BadPaginationButtonCount(o)
  {
  }

  /** Whatever it throws names one of the three pagination properties. */
  lemma ValidateNamesParameter(o: SwiftGridOptions)
    requires Validate(o).Fail?
    ensures Validate(o).error.ParamName in {"PaginationSize", "PaginationMode", "PaginationButtonCount"}
  {
  }

  /** A page size rule failure is reported first, whatever else is wrong; a mode failure precedes a button-count failure. */
  lemma ValidateReportsInOrder(o: SwiftGridOptions)
    ensures BadPaginationSize(o) ==> Validate(o).Fail? && Validate(o).error.ParamName == "PaginationSize"
    ensures !BadPaginationSize(o) && BadPaginationMode(o) ==> Validate(o).Fail? && Validate(o).error.ParamName == "PaginationMode"
  {
  }

  /** With pagination off, any page size is accepted: the answer is the same as with no size at all. */
  lemma PageSizeIgnoredWithoutPagination(o: SwiftGridOptions, size: Option<Int32>)
    requires !o.Pagination
    ensures Validate(o.(PaginationSize := size)) == Validate(o.(PaginationSize := None))
  {
  }

  /** Rule 1 rejects a page size only when pagination is on and a size of zero or less is set. */
  lemma PageSizeRule(o: SwiftGridOptions)
    ensures o.PaginationSize.None? ==> !BadPaginationSize(o)
    ensures o.Pagination ==> BadPaginationSize(o.(PaginationSize := Some(0)))
    ensures !BadPaginationSize(o.(PaginationSize := Some(1)))
  {
  }

  /** A missing, empty or blank mode passes rule 2; a present one must be exactly "local" or "remote" ("Local" fails). */
  lemma PaginationModeRule(o: SwiftGridOptions)
    ensures IsNullOrWhiteSpace(o.PaginationMode) ==> !BadPaginationMode(o)
    ensures BadPaginationMode(o.(PaginationMode := Some("Local")))
  {
    assert !IsWhiteSpace("Local"[0]);
  }

  /** `Validate` reads only the four properties its rules mention: changing any other leaves its answer alone. */
  lemma ValidateReadsOnlyPagination(o: SwiftGridOptions, p: SwiftGridOptions)
    requires o.Pagination == p.Pagination && o.PaginationSize == p.PaginationSize
    requires o.PaginationMode == p.PaginationMode && o.PaginationButtonCount == p.PaginationButtonCount
    ensures Validate(o) == Validate(p)
  {
  }
}
