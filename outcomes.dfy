/** Python-level results: a value, or an exception that the source lets escape. */
module Outcomes {

  datatype Option<+T> = None | Some(value: T)

  /** The built-in exceptions the modelled code can raise. */
  datatype Exc =
    | IndexError         // subscript past the end of a list, tuple or ctypes array
    | ZeroDivisionError  // division by a zero pixel-addressing value
    | TypeError          // subscripting an int, range() of a float
    | ValueError         // int() of a string that is not a decimal number
    | AssertionError     // a failed `assert` statement of a sample

  datatype Outcome<+T> = Normal(value: T) | Raised(exc: Exc)

  /** Exception-propagating sequencing: the first raised exception wins. */
  function Then<T, U>(o: Outcome<T>, k: T -> Outcome<U>): (r: Outcome<U>)
    ensures o.Raised? ==> r == Raised(o.exc)
    ensures o.Normal? ==> r == k(o.value)
  {
    match o
    case Raised(e) => Raised(e)
    case Normal(v) => k(v)
  }

  /** Python's `s[i]`, which raises IndexError past the end. */
  function At<T>(s: seq<T>, i: nat): (r: Outcome<T>)
    ensures r.Normal? <==> i < |s|
    ensures r.Normal? ==> r.value == s[i]
    ensures r.Raised? ==> r.exc == IndexError
  {
    if i < |s| then Normal(s[i]) else Raised(IndexError)
  }
}
