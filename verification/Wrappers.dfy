/** Optional values, calls that may raise, and what every module says about numbers and sequences. */
module Wrappers {

  datatype Option<T> = None | Some(value: T)

  /** What a call into code outside the model answers: a value, or an exception. */
  datatype Outcome<T> = Returned(value: T) | Raised

  function Max(a: int, b: int): int { if a < b then b else a }
  function Min(a: int, b: int): int { if a < b then a else b }

  lemma Nothing<T>(s: seq<T>)
    ensures s + [] == s
  {
  }

  lemma Regroup<T>(a: seq<T>, b: seq<T>, c: seq<T>)
    ensures (a + b) + c == a + (b + c)
  {
  }
}
