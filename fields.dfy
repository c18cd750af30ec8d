/** graphlayer/fields.py: cardinality wrappers for fields whose reader
    yields a sequence of values. `many` keeps the field as it is; `single`
    and `single_or_null` ask the field to post-process what its reader
    returns with a `select_value` function. Which fields can do that is up
    to the field (`map_values`); module SqlAlchemy says which of its fields
    can. */
module Fields {
  import opened Wrappers

  /** Which `select_value` a wrapper installs. */
  datatype Cardinality =
    | ExactlyOne  // `single`
    | ZeroOrOne   // `single_or_null`

  /** The `ValueError` each `select_value` raises. */
  datatype CardinalityError =
    | ExpectedExactlyOne
    | ExpectedZeroOrOne

  /** The message the `ValueError` carries. */
  function Message(e: CardinalityError): string {
    match e
    case ExpectedExactlyOne => "expected exactly one value"
    case ExpectedZeroOrOne => "expected zero or one values"
  }

  /** `select_value(values)`; `None` is Python's `None`. */
  function SelectValue<T>(c: Cardinality, values: seq<T>): (r: Result<Option<T>, CardinalityError>)
    ensures r.Success? && r.value.Some? ==> |values| == 1 && r.value.value == values[0]
    ensures r.Success? && r.value.None? ==> c == ZeroOrOne && values == []
    ensures r.Failure? ==> r.error == (if c == ExactlyOne then ExpectedExactlyOne else ExpectedZeroOrOne)
  {
    match c
    case ExactlyOne =>
      if |values| == 1 then Success(Some(values[0])) else Failure(ExpectedExactlyOne)
    case ZeroOrOne =>
      if |values| == 0 then Success(None)
      else if |values| == 1 then Success(Some(values[0]))
      else Failure(ExpectedZeroOrOne)
  }

  /** `single` accepts exactly the one-element sequences, and returns their
      element. */
  lemma SingleSelects<T>(values: seq<T>)
    ensures SelectValue(ExactlyOne, values).Success? <==> |values| == 1
    ensures |values| == 1 ==> SelectValue(ExactlyOne, values) == Success(Some(values[0]))
    ensures |values| != 1 ==> Message(SelectValue(ExactlyOne, values).error) == "expected exactly one value"
  {
  }

  /** `single_or_null` maps no value to `None`, one value to itself, and
      fails on more. */
  lemma SingleOrNullSelects<T>(values: seq<T>)
    ensures SelectValue(ZeroOrOne, values).Success? <==> |values| <= 1
    ensures |values| == 0 ==> SelectValue(ZeroOrOne, values) == Success(None)
    ensures |values| == 1 ==> SelectValue(ZeroOrOne, values) == Success(Some(values[0]))
    ensures |values| >= 2 ==> Message(SelectValue(ZeroOrOne, values).error) == "expected zero or one values"
  {
  }

  /** Where `single` succeeds, `single_or_null` succeeds with the same
      value; the two differ only on the empty sequence. */
  lemma SingleRefinesSingleOrNull<T>(values: seq<T>)
    ensures SelectValue(ExactlyOne, values).Success? ==>
              SelectValue(ZeroOrOne, values) == SelectValue(ExactlyOne, values)
    ensures SelectValue(ZeroOrOne, values).Success? && SelectValue(ExactlyOne, values).Failure? ==> values == []
  {
  }

  /** `many(field)`: the field itself. */
  function Many<F>(field: F): (r: F)
    ensures r == field
  {
    field
  }

  /** `single(field)`: `field.map_values(select_value)`, where `mapValues`
      is the field's own `map_values`. */
  function Single<F, E>(mapValues: (F, Cardinality) -> Result<F, E>, field: F): Result<F, E> {
    mapValues(field, ExactlyOne)
  }

  /** `single_or_null(field)`: as `single`, with the zero-or-one selector. */
  function SingleOrNull<F, E>(mapValues: (F, Cardinality) -> Result<F, E>, field: F): Result<F, E> {
    mapValues(field, ZeroOrOne)
  }
}
