/** Option and Result, used wherever the source returns null or throws, and the first-match search. */
module Wrappers {
  datatype Option<+T> = None | Some(value: T)

  datatype Result<+T, +E> = Success(value: T) | Failure(error: E)

  /** The one framework exception the pure helpers can raise: `ArgumentOutOfRangeException`. */
  datatype Fault = ArgumentOutOfRange

  /**
   * Position of the first element whose key is `k`: what `FirstOrDefault(x => x.Key == k)`
   * picks, and where a dictionary kept as an insertion-ordered list holds key `k`.
   */
  function FindFirst<T, K(==)>(s: seq<T>, key: T -> K, k: K): (r: Option<nat>)
    ensures r.Some? ==> r.value < |s| && key(s[r.value]) == k
    ensures r.Some? ==> forall j :: 0 <= j < r.value ==> key(s[j]) != k
    ensures r.None? <==> forall j :: 0 <= j < |s| ==> key(s[j]) != k
  {
    if |s| == 0 then None
    else if key(s[0]) == k then Some(0)
    else match FindFirst(s[1..], key, k)
      case None => None
      case Some(i) => Some(i + 1)
  }
}
