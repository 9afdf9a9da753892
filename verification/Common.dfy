/** Result shapes and small functions shared by the modules. */
module Common {
  datatype Option<+T> = None | Some(value: T)

  /** A JavaScript call that either returns or throws. */
  datatype Outcome<+T, +E> = Returned(value: T) | Thrown(error: E)

  function Min(a: int, b: int): int { if a < b then a else b }
  function Max(a: int, b: int): int { if a > b then a else b }

  predicate Distinct<T(==)>(s: seq<T>) { forall i, j | 0 <= i < j < |s| :: s[i] != s[j] }
}
