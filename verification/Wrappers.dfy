/** Optional values, outcomes that carry an error, and what holds of the front of a list. */
module Wrappers {
  datatype Option<+T> = None | Some(value: T)

  datatype Result<+T, +E> = Ok(value: T) | Err(error: E)

  /** The first `k` elements are all good. */
  predicate Each<T>(good: T -> bool, s: seq<T>, k: nat)
    requires k <= |s|
  {
    k == 0 || (Each(good, s, k - 1) && good(s[k - 1]))
  }

  lemma {:induction false} EachTells<T>(good: T -> bool, s: seq<T>, k: nat)
    requires k <= |s|
    ensures Each(good, s, k) <==> forall i :: 0 <= i < k ==> good(s[i])
    decreases k
  {
    if k > 0 { EachTells(good, s, k - 1); }
  }
}
