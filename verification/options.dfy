/** Nullable values and the JavaScript truthiness tests the hook and the screen apply to them. */
module Options {

  /** A value that may be `null`/`undefined` in the source. */
  datatype Option<+T> = None | Some(value: T)

  /** `o ?? fallback`: only a missing value falls through; an empty string does not. */
  function Coalesce<T>(o: Option<T>, fallback: T): T
  {
    match o
    case Some(v) => v
    case None => fallback
  }

  /** `!!s` for a `string | null`: both `null` and `""` are falsy. */
  predicate IsTruthyString(o: Option<string>)
  {
    o.Some? && o.value != ""
  }

  /** `!!n` for a `number | null` holding an integer: both `null` and `0` are falsy. */
  predicate IsTruthyNumber(o: Option<int>)
  {
    o.Some? && o.value != 0
  }
}
