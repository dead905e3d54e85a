/**
 * The .NET values the query helper handles, with reflection replaced by an explicit
 * property map: a filter value is an `object?`, and a data record is either null or
 * an object whose public properties are listed by name.
 */
module Records {
  import opened Wrappers
  import opened Text

  /**
   * A non-null .NET object: a boxed `int`, a `string`, or any other object, given by
   * the text its `ToString()` returns (`None` when that override returns null).
   */
  datatype Obj = IntObj(i: Int32) | StrObj(s: string) | OtherObj(text: Option<string>)

  /** `object.ToString()`: the decimal text of an `int`, the string itself, or the override's text. */
  function ToText(o: Obj): (r: Option<string>)
    ensures o.OtherObj? || r.Some?
  {
    match o
    case IntObj(i) => Some(IntToString(i))
    case StrObj(s) => Some(s)
    case OtherObj(t) => t
  }

  /**
   * A record of the data source. `Item(props)` lists the public properties of the
   * record's type: a name missing from `props` has no such property, and a name
   * mapped to `None` is a property whose current value is null.
   */
  datatype Item = NullItem | Item(props: map<string, Option<Obj>>)
}
