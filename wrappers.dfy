/** Optional values: JavaScript's `null` / `undefined` and absent fields. */
module Wrappers {

  datatype Option<+T> = None | Some(value: T)

  /** The terminal event payload every game variant reports: `onComplete(score, mistakes)`. */
  datatype Report = Report(score: int, mistakes: int)

  function Min(a: int, b: int): (m: int)
    ensures m <= a && m <= b && (m == a || m == b)
  {
    if a <= b then a else b
  }
}
