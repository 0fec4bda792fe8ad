/**
 * A budget item: a description, an integer amount and a frequency, each
 * validated on the way in.
 */
module BudgetItems {
  import opened Wrappers
  import opened Values
  import opened Whitespace
  import opened Decimals

  datatype BudgetItem = BudgetItem(description: string, amount: int, frequency: string)

  /** What validation guarantees of an item: both texts are non-empty and in normal form. */
  predicate WellFormed(item: BudgetItem) {
    && item.description != [] && SingleSpaced(item.description)
    && item.frequency != [] && SingleSpaced(item.frequency)
  }

  predicate AllWellFormed(items: seq<BudgetItem>) {
    forall i :: 0 <= i < |items| ==> WellFormed(items[i])
  }

  /** Appending a validated item keeps a list of validated items validated. */
  lemma AppendWellFormed(items: seq<BudgetItem>, item: BudgetItem)
    requires WellFormed(item)
    ensures AllWellFormed(items) ==> AllWellFormed(items + [item])
  {
  }

  /**
   * `new_budget_item(description, amount, frequency)`: the description,
   * the amount and the frequency are validated in that order, and the first
   * failure is raised.
   */
  function NewBudgetItem(description: Value, amount: Value, frequency: Value): (r: Result<BudgetItem, Error>)
    ensures r.Success? ==> WellFormed(r.value)
    ensures r.Success? <==> ParseString(description).Success? && ParseInt(amount).Success? && ParseString(frequency).Success?
    ensures r.Success? ==> (
      && r.value.description == ParseString(description).value
      && r.value.amount == ParseInt(amount).value
      && r.value.frequency == ParseString(frequency).value)
    ensures ParseString(description).Failure? ==> r == Failure(ParseString(description).error)
    ensures ParseString(description).Success? && ParseInt(amount).Failure? ==> r == Failure(ParseInt(amount).error)
    ensures ParseString(description).Success? && ParseInt(amount).Success? && ParseString(frequency).Failure? ==>
      r == Failure(ParseString(frequency).error)
  {
    var d :- ParseString(description);
    var a :- ParseInt(amount);
    var fr :- ParseString(frequency);
    Success(BudgetItem(d, a, fr))
  }

  /** Validation is the identity on validated items: an item is rebuilt unchanged from its own fields. */
  lemma NewBudgetItemOfItem(item: BudgetItem)
    requires WellFormed(item)
    ensures NewBudgetItem(StrValue(item.description), IntValue(item.amount), StrValue(item.frequency)) == Success(item)
  {
    NormalizeStringIdempotent(item.description);
    NormalizeStringIdempotent(item.frequency);
    assert ParseString(StrValue(item.description)) == Success(item.description);
    assert ParseInt(IntValue(item.amount)) == Success(item.amount);
    assert ParseString(StrValue(item.frequency)) == Success(item.frequency);
  }

  /** The description is checked first: a bad description hides a bad amount or frequency. */
  lemma DescriptionCheckedFirst(description: Value, amount: Value, frequency: Value)
    requires !description.StrValue?
    ensures NewBudgetItem(description, amount, frequency) == Failure(TypeError(description, StrClass))
  {
  }
}
