/**
 * `FilterOperator` and `SwiftGridFilter`: one filter of a grid query, with the legacy
 * string property `Op` that reads and writes the operator as a short code.
 */
module FilterEntity {
  import opened Wrappers
  import opened Text
  import opened Records

  datatype FilterOperator =
    | Equal | NotEqual | Like
    | GreaterThan | GreaterThanOrEqual | LessThan | LessThanOrEqual
    | In | NotIn

  /** `Enum.ToString()`: the member's declared name. */
  function OperatorName(op: FilterOperator): string {
    match op
    case Equal => "Equal"
    case NotEqual => "NotEqual"
    case Like => "Like"
    case GreaterThan => "GreaterThan"
    case GreaterThanOrEqual => "GreaterThanOrEqual"
    case LessThan => "LessThan"
    case LessThanOrEqual => "LessThanOrEqual"
    case In => "In"
    case NotIn => "NotIn"
  }

  /** The nine short codes of the legacy `Op` property. */
  const OpCodes: set<string> := {"eq", "neq", "like", "gt", "gte", "lt", "lte", "in", "nin"}

  /** `Op`'s getter: lower-case the operator's name, then map the name to its code; any other name reads as "eq". */
  function OpCode(op: FilterOperator): (code: string)
    ensures code in OpCodes
  {
    var name := Lower(OperatorName(op));
    if name == "equal" then "eq"
    else if name == "notequal" then "neq"
    else if name == "like" then "like"
    else if name == "greaterthan" then "gt"
    else if name == "greaterthanorequal" then "gte"
    else if name == "lessthan" then "lt"
    else if name == "lessthanorequal" then "lte"
    else if name == "in" then "in"
    else if name == "notin" then "nin"
    else "eq"
  }

  /** `Op`'s setter: lower-case the text and map a code to its operator; null and every other text mean `Equal`. */
  function ParseOp(value: Option<string>): FilterOperator {
    if value.None? then Equal
    else
      var code := Lower(value.value);
      if code == "eq" then Equal
      else if code == "neq" then NotEqual
      else if code == "like" then Like
      else if code == "gt" then GreaterThan
      else if code == "gte" then GreaterThanOrEqual
      else if code == "lt" then LessThan
      else if code == "lte" then LessThanOrEqual
      else if code == "in" then In
      else if code == "nin" then NotIn
      else Equal
  }

  /** An operator's lower-cased name, member by member. */
  lemma LoweredName(op: FilterOperator)
    ensures Lower(OperatorName(op)) == match op
      case Equal => "equal"
      case NotEqual => "notequal"
      case Like => "like"
      case GreaterThan => "greaterthan"
      case GreaterThanOrEqual => "greaterthanorequal"
      case LessThan => "lessthan"
      case LessThanOrEqual => "lessthanorequal"
      case In => "in"
      case NotIn => "notin"
  {
    match op
    case Equal => assert Lower("Equal") == "equal";
    case NotEqual => assert Lower("NotEqual") == "notequal";
    case Like => assert Lower("Like") == "like";
    case GreaterThan => assert Lower("GreaterThan") == "greaterthan";
    case GreaterThanOrEqual => assert Lower("GreaterThanOrEqual") == "greaterthanorequal";
    case LessThan => assert Lower("LessThan") == "lessthan";
    case LessThanOrEqual => assert Lower("LessThanOrEqual") == "lessthanorequal";
    case In => assert Lower("In") == "in";
    case NotIn => assert Lower("NotIn") == "notin";
  }

  /** The code each operator reads as: the getter's table, entry by entry. */
  lemma OpCodeTable(op: FilterOperator)
    ensures OpCode(op) == match op
      case Equal => "eq"
      case NotEqual => "neq"
      case Like => "like"
      case GreaterThan => "gt"
      case GreaterThanOrEqual => "gte"
      case LessThan => "lt"
      case LessThanOrEqual => "lte"
      case In => "in"
      case NotIn => "nin"
  {
    LoweredName(op);
  }

  /** Distinct operators read as distinct codes, so the getter loses nothing. */
  lemma OpCodeInjective(a: FilterOperator, b: FilterOperator)
    requires OpCode(a) == OpCode(b)
    ensures a == b
  {
    OpCodeTable(a);
    OpCodeTable(b);
  }

  /** The setter ignores case: texts that agree after lowering set the same operator ("GTE" and "gte"). */
  lemma ParseOpIgnoresCase(s: string, t: string)
    requires Lower(s) == Lower(t)
    ensures ParseOp(Some(s)) == ParseOp(Some(t))
  {
  }

  /** The setter sends null and every text that is not one of the nine codes to `Equal`. */
  lemma ParseOpFallback(value: Option<string>)
    requires value.None? || Lower(value.value) !in OpCodes
    ensures ParseOp(value) == Equal
  {
  }

  /** The codes are fixed points of lowering, so a code is accepted in any case. */
  lemma OpCodesAreLower(code: string)
    requires code in OpCodes
    ensures Lower(code) == code
  {
    if code == "eq" { LowerNoCapitals("eq"); }
    else if code == "neq" { LowerNoCapitals("neq"); }
    else if code == "like" { LowerNoCapitals("like"); }
    else if code == "gt" { LowerNoCapitals("gt"); }
    else if code == "gte" { LowerNoCapitals("gte"); }
    else if code == "lt" { LowerNoCapitals("lt"); }
    else if code == "lte" { LowerNoCapitals("lte"); }
    else if code == "in" { LowerNoCapitals("in"); }
    else { LowerNoCapitals("nin"); }
  }

  /** Round trip through the getter: writing back the code that was read leaves the operator as it was. */
  lemma OperatorRoundTrip(op: FilterOperator)
    ensures ParseOp(Some(OpCode(op))) == op
  {
    OpCodeTable(op);
    OpCodesAreLower(OpCode(op));
  }

  /** Round trip through the setter: writing any casing of a code and reading back gives the lower-case code. */
  lemma CodeRoundTrip(s: string)
    requires Lower(s) in OpCodes
    ensures OpCode(ParseOp(Some(s))) == Lower(s)
  {
    OpCodeTable(ParseOp(Some(s)));
  }

  /** An immutable snapshot of a filter's three properties, as a query carries it. */
  datatype FilterSpec = FilterSpec(Field: string, Operator: FilterOperator, Value: Option<Obj>)

  /** A filter object whose properties callers assign one by one. */
  class SwiftGridFilter {
    var Field: string
    var Operator: FilterOperator
    var Value: Option<Obj>

    /** `new SwiftGridFilter()`: no field, `Equal`, no value. */
    constructor ()
      ensures Field == "" && Operator == Equal && Value == None
    {
      Field := "";
      Operator := Equal;
      Value := None;
    }

    /** Reading `Op`: one of the nine codes, and the one that sets the current operator again. */
    function Op(): (code: string)
      reads this
      ensures code in OpCodes
      ensures ParseOp(Some(code)) == Operator
    {
      OperatorRoundTrip(Operator);
      OpCode(Operator)
    }

    /** Assigning `Op`: the operator becomes the one the text names, `Equal` for null or an unknown text. */
    method SetOp(value: Option<string>)
      modifies this
      ensures Operator == ParseOp(value)
      ensures Field == old(Field) && Value == old(Value)
    {
      Operator := ParseOp(value);
    }

    /** The filter's current properties. */
    function Spec(): FilterSpec
      reads this
    {
      FilterSpec(Field, Operator, Value)
    }
  }

  /** `filter.Op = filter.Op` changes nothing. */
  method ReassignOp(f: SwiftGridFilter)
    modifies f
    ensures f.Spec() == old(f.Spec())
  {
    var code := f.Op();
    f.SetOp(Some(code));
  }
}
