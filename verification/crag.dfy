/** The corrective retry loop: run the pipeline on the same query until the
    self-check is satisfied or the attempts run out. */
module Crag {
  import opened Common
  import opened Schemas
  import opened SelfRag

  const DEFAULT_MAX_ITERS: int := 2

  /** The pipeline as the loop sees it: `run(query, attempt)` is the result
      of the `attempt`-th call (counted from 0), so that successive calls may
      differ as a language model's replies do. */
  type Runner = (string, nat) -> RAGResult

  predicate Retry(r: RAGResult) { ShouldRetry(Some(r.answer)) }

  /** The loop from attempt `i` on, `last` being the result it holds. */
  function CragFrom(run: Runner, query: string, i: nat, maxIters: int, last: Option<RAGResult>): Option<RAGResult>
    decreases maxIters - i
  {
    if i >= maxIters then last
    else
      var r := run(query, i);
      if !Retry(r) then Some(r) else CragFrom(run, query, i + 1, maxIters, Some(r))
  }

  /** `crag_run(pipeline, query, max_iters)`. */
  function CragRun(run: Runner, query: string, maxIters: int := DEFAULT_MAX_ITERS): Option<RAGResult> {
    CragFrom(run, query, 0, maxIters, None)
  }

  /** The loop made `n` runs: every run before the last asked for a retry,
      and the last one passed the self-check unless it was the final attempt. */
  ghost predicate StopsAfter(run: Runner, query: string, maxIters: int, n: int) {
    1 <= n <= maxIters
    && (forall k :: 0 <= k < n - 1 ==> Retry(run(query, k)))
    && (n < maxIters ==> !Retry(run(query, n - 1)))
  }

  lemma {:induction false} CragFromSpec(run: Runner, query: string, i: nat, maxIters: int, last: Option<RAGResult>)
    requires i <= maxIters || i == 0
    requires if i == 0 then last == None else last == Some(run(query, i - 1))
    requires forall k :: 0 <= k < i ==> Retry(run(query, k))
    ensures maxIters <= 0 ==> CragFrom(run, query, i, maxIters, last) == None
    ensures maxIters > 0 ==>
      exists n :: i <= n && StopsAfter(run, query, maxIters, n)
        && CragFrom(run, query, i, maxIters, last) == Some(run(query, n - 1))
    decreases maxIters - i
  {
    if i < maxIters {
      var x := run(query, i);
      if !Retry(x) {
        assert StopsAfter(run, query, maxIters, i + 1);
      } else {
        CragFromSpec(run, query, i + 1, maxIters, Some(x));
      }
    } else if i > 0 {
      assert StopsAfter(run, query, maxIters, i);
    }
  }

  /** `crag_run` returns nothing when no attempt is allowed; otherwise it
      returns the result of its last run, and it stops at the first result
      that passes the self-check. */
  lemma CragRunSpec(run: Runner, query: string, maxIters: int)
    ensures CragRun(run, query, maxIters).None? <==> maxIters <= 0
    ensures maxIters > 0 ==>
      exists n :: StopsAfter(run, query, maxIters, n)
        && CragRun(run, query, maxIters) == Some(run(query, n - 1))
  {
    CragFromSpec(run, query, 0, maxIters, None);
  }

  /** The number of runs is fixed by the results: at most one `n` fits. */
  lemma StopsAfterUnique(run: Runner, query: string, maxIters: int, n: int, m: int)
    requires StopsAfter(run, query, maxIters, n) && StopsAfter(run, query, maxIters, m)
    ensures n == m
  {
  }

  /** With the default two attempts and two unsatisfying answers, the loop
      runs twice and returns the second result. */
  lemma TwoRetries(run: Runner, query: string)
    requires Retry(run(query, 0)) && Retry(run(query, 1))
    ensures CragRun(run, query) == Some(run(query, 1))
  {
  }

  /** A satisfying first answer is returned at once. */
  lemma FirstPasses(run: Runner, query: string, maxIters: int)
    requires maxIters >= 1 && !Retry(run(query, 0))
    ensures CragRun(run, query, maxIters) == Some(run(query, 0))
  {
  }

  /** The loop itself, also reporting how many runs it made. */
  method CragLoop(run: Runner, query: string, maxIters: int) returns (r: Option<RAGResult>, runs: nat)
    ensures runs == 0 <==> maxIters <= 0
    ensures runs <= Max(0, maxIters)
    ensures r.Some? <==> runs > 0
    ensures runs > 0 ==> StopsAfter(run, query, maxIters, runs) && r == Some(run(query, runs - 1))
    ensures r == CragRun(run, query, maxIters)
  {
    r := None;
    runs := 0;
    var i: nat := 0;
    while i < maxIters
      invariant i <= Max(0, maxIters) && runs == i
      invariant forall k :: 0 <= k < i ==> Retry(run(query, k))
      invariant i > 0 ==> r == Some(run(query, i - 1))
      invariant i == 0 ==> r == None
      invariant CragRun(run, query, maxIters) == CragFrom(run, query, i, maxIters, r)
      decreases maxIters - i
    {
      var x := run(query, i);
      runs := runs + 1;
      r := Some(x);
      if !Retry(x) {
        assert StopsAfter(run, query, maxIters, i + 1);
        return;
      }
      i := i + 1;
    }
    if i > 0 {
      assert StopsAfter(run, query, maxIters, i);
    }
  }
}
