/**
 * `SortDirection` and `SwiftGridSort`: one sort key of a grid query, with the legacy
 * string property `Dir` that reads and writes the direction as "asc" or "desc".
 */
module SortEntity {
  import opened Wrappers
  import opened Text

  datatype SortDirection = Ascending | Descending

  /** `Dir`'s getter. */
  function DirCode(d: SortDirection): (code: string)
    ensures code == "asc" || code == "desc"
    ensures code == "asc" <==> d == Ascending
  {
    if d == Ascending then "asc" else "desc"
  }

  /** `Dir`'s setter: `Descending` for any casing of "desc", `Ascending` for null and everything else. */
  function ParseDir(value: Option<string>): SortDirection {
    if value.Some? && Lower(value.value) == "desc" then Descending else Ascending
  }

  /** Any casing of "desc" selects `Descending`; a longer word that starts with it, "d", and null do not. */
  lemma ParseDirCases()
    ensures ParseDir(Some("DESC")) == Descending && ParseDir(Some("Desc")) == Descending
    ensures ParseDir(Some("descending")) == Ascending && ParseDir(Some("d")) == Ascending
    ensures ParseDir(None) == Ascending && ParseDir(Some("asc")) == Ascending
  {
    assert Lower("DESC") == "desc" && Lower("Desc") == "desc";
    assert |Lower("descending")| != |"desc"|;
  }

  /** `Dir = Dir` leaves the direction as it was. */
  lemma DirectionRoundTrip(d: SortDirection)
    ensures ParseDir(Some(DirCode(d))) == d
  {
    assert Lower("desc") == "desc";
    assert Lower("asc") != "desc";
  }

  /** Writing `Dir` and reading it back gives the canonical code; writing that again changes nothing. */
  lemma DirCodeRoundTrip(value: Option<string>)
    ensures DirCode(ParseDir(value)) == (if value.Some? && Lower(value.value) == "desc" then "desc" else "asc")
    ensures ParseDir(Some(DirCode(ParseDir(value)))) == ParseDir(value)
  {
    DirectionRoundTrip(ParseDir(value));
  }

  /** An immutable snapshot of a sort's two properties, as a query carries it. */
  datatype SortSpec = SortSpec(Field: string, Direction: SortDirection)

  /** A sort object whose properties callers assign one by one. */
  class SwiftGridSort {
    var Field: string
    var Direction: SortDirection

    /** `new SwiftGridSort()`: no field, ascending. */
    constructor ()
      ensures Field == "" && Direction == Ascending
    {
      Field := "";
      Direction := Ascending;
    }

    /** Reading `Dir`: "asc" exactly when ascending, otherwise "desc". */
    function Dir(): (code: string)
      reads this
      ensures code == "asc" || code == "desc"
      ensures code == "asc" <==> Direction == Ascending
      ensures ParseDir(Some(code)) == Direction
    {
      DirectionRoundTrip(Direction);
      DirCode(Direction)
    }

    /** Assigning `Dir`: the direction becomes `ParseDir(value)`; the field is untouched. */
    method SetDir(value: Option<string>)
      modifies this
      ensures Direction == ParseDir(value)
      ensures Field == old(Field)
    {
      Direction := ParseDir(value);
    }

    /** The sort's current properties. */
    function Spec(): SortSpec
      reads this
    {
      SortSpec(Field, Direction)
    }
  }

  /** `sort.Dir = sort.Dir` changes nothing. */
  method ReassignDir(s: SwiftGridSort)
    modifies s
    ensures s.Spec() == old(s.Spec())
  {
    var code := s.Dir();
    s.SetDir(Some(code));
  }

  /** Assigning the same text to `Dir` twice is assigning it once. */
  method SetDirTwice(s: SwiftGridSort, value: Option<string>)
    modifies s
    ensures s.Direction == ParseDir(value) && s.Field == old(s.Field)
    ensures s.Dir() == DirCode(ParseDir(value))
  {
    s.SetDir(value);
    s.SetDir(value);
  }
}
