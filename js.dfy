/** JavaScript values as the pages see them in fetched JSON, and the few
    evaluation rules the pages depend on: truthiness, `String(x)`, `x || []`,
    and what React renders for `{x}` and `{x && <span>...</span>}`. */
module Js {
  import opened Text

  /** A property of a fetched JSON object: missing, explicitly null, or present. */
  datatype Field<T> = Undefined | Null | Present(value: T)

  datatype Option<T> = None | Some(value: T)

  /** A number is falsy when it is 0 (NaN is not modelled), null or undefined. */
  predicate TruthyNumber(f: Field<int>) {
    f.Present? && f.value != 0
  }

  /** A string is falsy when it is empty, null or undefined. */
  predicate TruthyString(f: Field<string>) {
    f.Present? && f.value != ""
  }

  /** `String(x)` or `${x}` for a numeric property. */
  function NumberString(f: Field<int>): string {
    match f
    case Undefined => "undefined"
    case Null => "null"
    case Present(n) => IntString(n)
  }

  /** `{x}` for a numeric property inside JSX: null and undefined render nothing. */
  function NumberText(f: Field<int>): string {
    if f.Present? then IntString(f.value) else ""
  }

  /** `{s}` for a string property inside JSX, and equally `s || ""`: null
      and undefined give the empty string, any other string is itself. */
  function StringText(f: Field<string>): string {
    if f.Present? then f.value else ""
  }

  /** `arr || []`: arrays are truthy, so only null and undefined fall back. */
  function OrEmpty<T>(f: Field<seq<T>>): seq<T> {
    if f.Present? then f.value else []
  }

  /** `{s && <X/>}` for a string property: an empty string renders nothing,
      so the element is shown exactly when `s` is truthy. */
  function WhenString(f: Field<string>): Option<string> {
    if TruthyString(f) then Some(f.value) else None
  }

  /** The visible text of `{x && <span>...</span>}` for a numeric `x`, as React
      evaluates it: a truthy `x` shows the span, null and undefined show nothing,
      and 0 is itself rendered, as the text "0". */
  function NumberGuard(x: Field<int>, shown: seq<string>): seq<string> {
    if TruthyNumber(x) then shown
    else if x == Present(0) then ["0"]
    else []
  }

  /** The span list shown when the condition holds, nothing otherwise. */
  function ShowIf(condition: bool, shown: seq<string>): seq<string> {
    if condition then shown else []
  }

  /** A numeric guard and a plain condition on its truthiness differ only
      when the guarded value is 0. */
  lemma NumberGuardUnlessZero(x: Field<int>, shown: seq<string>)
    ensures x != Present(0) ==> NumberGuard(x, shown) == ShowIf(TruthyNumber(x), shown)
    ensures x == Present(0) ==> NumberGuard(x, shown) == ["0"]
  {
  }
}
