/** The plain Python dictionaries that `to_dict` produces and `from_dict`
    consumes: string keys, values that are `None`, an `int` or a `str`. */
module Dicts {
  import opened Outcomes
  import opened Text

  datatype Value = PyNone | PyInt(i: int) | PyStr(s: string)

  type Dict = map<string, Value>

  /** `data.get(key)`: the value, or `None` when the key is missing. */
  function Get(data: Dict, key: string): (v: Value)
    ensures key !in data ==> v == PyNone
    ensures key in data ==> v == data[key]
  {
    if key in data then data[key] else PyNone
  }

  /** `data[key]`: the value, or `KeyError` when the key is missing. */
  function Index(data: Dict, key: string): (r: Result<Value>)
    ensures r.Ok? <==> key in data
    ensures r.Ok? ==> r.value == data[key]
    ensures r.Err? ==> r.error == KeyError(key)
  {
    if key in data then Ok(data[key]) else Err(KeyError(key))
  }

  /** An optional integer field of the record (`int | None`); a string
      cannot be held by it and is refused. */
  function OptionalInt(v: Value, field: string): (r: Result<Option<int>>)
    ensures v == PyNone ==> r == Ok(None)
    ensures v.PyInt? ==> r == Ok(Some(v.i))
    ensures v.PyStr? ==> r.Err?
  {
    match v
    case PyNone => Ok(None)
    case PyInt(i) => Ok(Some(i))
    case PyStr(_) => Err(TypeError(field))
  }

  /** An optional text field of the record (`str | None`); an integer
      cannot be held by it and is refused. */
  function OptionalText(v: Value, field: string): (r: Result<Option<string>>)
    ensures v == PyNone ==> r == Ok(None)
    ensures v.PyStr? ==> r == Ok(Some(v.s))
    ensures v.PyInt? ==> r.Err?
  {
    match v
    case PyNone => Ok(None)
    case PyStr(s) => Ok(Some(s))
    case PyInt(_) => Err(TypeError(field))
  }

  /** A `str` field of the record: a value of any other type cannot be held
      by it and is refused. */
  function StrValue(v: Value, field: string): (r: Result<string>)
    ensures r.Ok? <==> v.PyStr?
    ensures r.Ok? ==> r.value == v.s
    ensures r.Err? ==> r.error == TypeError(field)
  {
    match v
    case PyStr(s) => Ok(s)
    case _ => Err(TypeError(field))
  }

  /** Python truthiness: `None`, `0` and `""` are false. */
  predicate Truthy(v: Value) {
    match v
    case PyNone => false
    case PyInt(i) => i != 0
    case PyStr(s) => s != ""
  }

  const NoStrip := "'int' object has no attribute 'strip'"

  /** The test `not v or not v.strip()`, raising `ValueError(message)`: a falsy
      value fails it before `strip` is looked up, a non-zero `int` has no
      `strip`, and a string fails when it is only whitespace. */
  function RequireText(v: Value, message: string): (r: Outcome)
    ensures r.Pass? <==> v.PyStr? && !IsBlank(v.s)
    ensures !Truthy(v) ==> r == Fail(ValueError(message))
    ensures v.PyStr? && IsBlank(v.s) ==> r == Fail(ValueError(message))
    ensures v.PyInt? && v.i != 0 ==> r == Fail(AttributeError(NoStrip))
  {
    match v
    case PyNone => Fail(ValueError(message))
    case PyInt(i) => if i == 0 then Fail(ValueError(message)) else Fail(AttributeError(NoStrip))
    case PyStr(s) => if IsBlank(s) then Fail(ValueError(message)) else Pass
  }

  function FromOptionalInt(x: Option<int>): Value {
    match x
    case None => PyNone
    case Some(i) => PyInt(i)
  }

  function FromOptionalText(x: Option<string>): Value {
    match x
    case None => PyNone
    case Some(s) => PyStr(s)
  }
}
