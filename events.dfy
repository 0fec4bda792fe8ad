/**
 * An event of the definitions package: a description, an amount and a
 * frequency. `new_event` validates them; the Budget class stores them as
 * given.
 */
module Events {
  import opened Wrappers
  import opened Values
  import opened Whitespace

  /** What `Event.as_dict()` returns: the amount as text with two decimals. */
  datatype EventDict = EventDict(description: Value, amount: string, frequency: Value)

  /** The fields hold whatever values the event was built from. */
  datatype Event = Event(description: Value, amount: Value, frequency: Value) {
    /**
     * `as_dict()`: the description and the frequency as they are, the amount
     * formatted with `:.2f`; `fixed2` is that formatting, which fails for a
     * value that has no such format.
     */
    function AsDict(fixed2: Value -> Result<string, Error>): (r: Result<EventDict, Error>)
      ensures r.Success? <==> fixed2(amount).Success?
      ensures r.Failure? ==> r.error == fixed2(amount).error
      ensures r.Success? ==> (r.value.description == description && r.value.frequency == frequency
        && r.value.amount == fixed2(amount).value)
    {
      var text :- fixed2(amount);
      Success(EventDict(description, text, frequency))
    }
  }

  /**
   * `parse_amount(value)`: the value itself when it is a float, else
   * `float(value)`; `toFloat` is that conversion, None when it raises, which
   * becomes `ValueError(value)`.
   */
  function ParseAmount(amount: Value, toFloat: Value -> Option<Value>): (r: Result<Value, Error>)
    ensures r.Success? <==> toFloat(amount).Some?
    ensures r.Success? ==> r.value == toFloat(amount).value
    ensures r.Failure? ==> r.error == ValueError(amount)
  {
    match toFloat(amount)
    case None => Failure(ValueError(amount))
    case Some(x) => Success(x)
  }

  /**
   * `new_event(description, amount, frequency)`: the description, the
   * amount and the frequency are validated in that order and the first
   * failure is raised; both texts come out normalised.
   */
  function NewEvent(description: Value, amount: Value, frequency: Value, toFloat: Value -> Option<Value>): (r: Result<Event, Error>)
    ensures r.Success? <==> ParseString(description).Success? && toFloat(amount).Some? && ParseString(frequency).Success?
    ensures r.Success? ==> (
      && r.value.description == StrValue(ParseString(description).value)
      && r.value.frequency == StrValue(ParseString(frequency).value)
      && r.value.description.StrValue? && r.value.frequency.StrValue?
      && r.value.description.s != [] && SingleSpaced(r.value.description.s)
      && r.value.frequency.s != [] && SingleSpaced(r.value.frequency.s)
      && NonSpace(r.value.description.s) == NonSpace(description.s)
      && NonSpace(r.value.frequency.s) == NonSpace(frequency.s)
      && r.value.amount == toFloat(amount).value)
    ensures ParseString(description).Failure? ==> r == Failure(ParseString(description).error)
    ensures ParseString(description).Success? && toFloat(amount).None? ==> r == Failure(ValueError(amount))
    ensures ParseString(description).Success? && toFloat(amount).Some? && ParseString(frequency).Failure? ==>
      r == Failure(ParseString(frequency).error)
  {
    var d :- ParseString(description);
    var a :- ParseAmount(amount, toFloat);
    var fr :- ParseString(frequency);
    Success(Event(StrValue(d), a, StrValue(fr)))
  }

  /** Normalising the texts of an event it built changes nothing. */
  lemma NewEventNormalForm(description: Value, amount: Value, frequency: Value, toFloat: Value -> Option<Value>)
    requires NewEvent(description, amount, frequency, toFloat).Success?
    ensures var e := NewEvent(description, amount, frequency, toFloat).value;
      ParseString(e.description) == Success(e.description.s) && ParseString(e.frequency) == Success(e.frequency.s)
  {
    var e := NewEvent(description, amount, frequency, toFloat).value;
    NormalizeStringIdempotent(e.description.s);
    NormalizeStringIdempotent(e.frequency.s);
  }
}
