/** Python-level building blocks shared by the data utilities: the two
    exception classes the helpers raise, a result type standing for
    "returns a value or raises", and Python sequence indexing. */
module PyBase {

  /** The exceptions the helpers can raise. */
  datatype Error = IndexError | ValueError

  /** A call either returns a value or raises one of the errors above. */
  datatype Result<T> = Success(value: T) | Failure(error: Error)

  datatype Option<T> = None | Some(value: T)

  /** `s[i]` is defined in Python for `-len(s) <= i < len(s)`. */
  predicate HasIndex<T>(s: seq<T>, i: int)
  {
    -|s| <= i < |s|
  }

  /** Python's `s[i]`: a negative index counts from the end. */
  function At<T>(s: seq<T>, i: int): (r: T)
    requires HasIndex(s, i)
    ensures r in s
  {
    if i >= 0 then s[i] else s[|s| + i]
  }

  /** Index `i` and index `i - len(s)` name the same element. */
  lemma AtNegative<T>(s: seq<T>, i: int)
    requires 0 <= i < |s|
    ensures HasIndex(s, i) && HasIndex(s, i - |s|)
    ensures At(s, i - |s|) == At(s, i)
  {
  }
}
