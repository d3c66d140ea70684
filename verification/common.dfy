/** Failure-carrying wrappers, the error taxonomy of the pipeline, and the
    Python slicing rule the source relies on (`xs[:k]`). */
module Common {

  datatype Option<+T> = None | Some(value: T) {
    function GetOr(default: T): T {
      match this
      case Some(v) => v
      case None => default
    }
  }

  /** The exceptions the modelled code raises or lets through. */
  datatype Error =
    | VectorNotBuilt          // "Vector index not built. ..."
    | Bm25NotBuilt            // "BM25 index not built. ..."
    | NoPdfsFound(dir: string)
    | NoPdfPathsProvided
    | NoExtractableText
    | ChunkSizeNotPositive    // ValueError("chunk size must be > 0")
    | ZeroDivision
    | AttributeError          // `.get` / `.strip` on a value that has none
    | TypeError               // iterating or slicing a value that does not support it

  datatype Result<+T> = Ok(value: T) | Err(error: Error) {
    predicate IsFailure() { Err? }
    function PropagateFailure<U>(): Result<U>
      requires Err?
    {
      Err(error)
    }
    function Extract(): T
      requires Ok?
    {
      value
    }
  }

  function Min(a: int, b: int): int { if a <= b then a else b }
  function Max(a: int, b: int): int { if a >= b then a else b }

  /** Python's `xs[:k]`: a non-negative bound keeps the first `k` elements
      (all of them when `k` is larger), a negative bound drops the last `-k`. */
  function Take<T>(xs: seq<T>, k: int): (r: seq<T>)
    ensures 0 <= k ==> |r| == Min(k, |xs|)
    ensures k < 0 ==> |r| == Max(0, |xs| + k)
    ensures r == xs[..|r|]
  {
    if k >= 0 then
      (if k <= |xs| then xs[..k] else xs)
    else
      (if |xs| + k >= 0 then xs[..|xs| + k] else [])
  }

  /** Whatever a slice keeps is in the list it was cut from. */
  lemma TakeIn<T>(xs: seq<T>, k: int, x: T)
    requires x in Take(xs, k)
    ensures x in xs
  {
    var r := Take(xs, k);
    var i :| 0 <= i < |r| && r[i] == x;
    assert xs[i] == x;
  }
}
