/**
 * The dynamically typed Python values the budget functions accept, and the
 * exceptions they raise, as data.
 */
module Values {
  import opened Digits
  import opened Calendar
  import opened Stamps

  datatype Value =
    | NoneValue                      // None
    | IntValue(i: int)               // int (bool is an int subclass and lands here)
    | StrValue(s: string)            // str
    | DateValue(date: Day)           // datetime.date
    | DateTimeValue(moment: DateTime) // datetime.datetime, naive
    | TimestampValue(stamp: Timestamp) // pandas.Timestamp
    | NaTValue                       // pandas.NaT, the "not a time" value
    | OtherValue(text: string)       // any other object (a float, a list, ...), by its str()

  /** The class named in a TypeError: what the value should have been. */
  datatype Expected =
    | StrClass        // str
    | TimestampClass  // pandas.Timestamp
    | StampClasses    // (int, str, date, datetime, Timestamp)
    | BudgetClass     // the Budget class of the definitions package
    | DefinitionClass // the BudgetDefinition dataclass of the datamodel module

  /**
   * The exceptions the modelled code raises. Python's TypeError also carries
   * `type(value)`, which the value determines.
   */
  datatype Error =
    | ValueError(value: Value)
    | TypeError(value: Value, expected: Expected)
    | AttributeError(attribute: string) // the attribute the object does not have

  /** `str(value)`. */
  function Str(v: Value): string {
    match v
    case NoneValue => "None"
    case IntValue(i) => IntText(i)
    case StrValue(s) => s
    case DateValue(d) => IsoDate(d)
    case DateTimeValue(t) => StampText(t)
    case TimestampValue(t) => StampText(t)
    case NaTValue => "NaT"
    case OtherValue(text) => text
  }
}
