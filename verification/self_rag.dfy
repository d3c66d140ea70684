/** The self-check that decides whether an answer should be retried: it
    looks, case-insensitively, for one of five phrases of doubt. */
module SelfRag {
  import opened Common
  import opened Text

  const TRIGGERS: seq<string> :=
    ["not available in documents", "i don't know", "cannot find", "not sure", "insufficient"]

  /** `should_retry(answer)`, with a missing answer read as "". */
  predicate ShouldRetry(answer: Option<string>) {
    var a := Lower(answer.GetOr(""));
    exists k :: 0 <= k < |TRIGGERS| && Contains(a, TRIGGERS[k])
  }

  /** The check fires exactly when a trigger phrase occurs somewhere in the
      lower-cased answer. */
  lemma ShouldRetryIff(answer: string)
    ensures ShouldRetry(Some(answer)) <==>
      exists k, i :: 0 <= k < |TRIGGERS| && OccursAt(Lower(answer), TRIGGERS[k], i)
  {
    var a := Lower(answer);
    forall k | 0 <= k < |TRIGGERS| ensures Contains(a, TRIGGERS[k]) <==> exists i :: OccursAt(a, TRIGGERS[k], i) {
      ContainsIff(a, TRIGGERS[k]);
    }
  }

  /** A missing or empty answer never asks for a retry. */
  lemma NothingNoRetry()
    ensures !ShouldRetry(None) && !ShouldRetry(Some(""))
  {
    assert Lower("") == "";
    forall k | 0 <= k < |TRIGGERS| ensures !Contains("", TRIGGERS[k]) {
      assert |TRIGGERS[k]| > 0;
    }
  }

  /** Letter case does not matter. */
  lemma CaseInsensitive(a: string, b: string)
    requires Lower(a) == Lower(b)
    ensures ShouldRetry(Some(a)) == ShouldRetry(Some(b))
  {
  }

  /** Lower-casing keeps an occurrence where it was. */
  lemma LowerOccurs(s: string, t: string, i: int)
    requires OccursAt(s, t, i)
    ensures OccursAt(Lower(s), Lower(t), i)
  {
    assert Lower(s)[i..i + |t|] == Lower(s[i..i + |t|]);
  }

  /** An occurrence inside an occurrence is an occurrence. */
  lemma OccursTrans(b: string, a: string, t: string, i: int, j: int)
    requires OccursAt(b, a, i) && OccursAt(a, t, j)
    ensures OccursAt(b, t, i + j)
  {
    assert b[i..i + |a|] == a;
    forall k | 0 <= k < |t| ensures b[i + j + k] == t[k] {
      assert a[j + k] == t[k];
      assert b[i + (j + k)] == a[j + k];
    }
  }

  /** Any text that contains a triggering answer triggers too. */
  lemma Monotone(a: string, b: string)
    requires Contains(b, a) && ShouldRetry(Some(a))
    ensures ShouldRetry(Some(b))
  {
    ContainsIff(b, a);
    var i :| OccursAt(b, a, i);
    LowerOccurs(b, a, i);
    var k :| 0 <= k < |TRIGGERS| && Contains(Lower(a), TRIGGERS[k]);
    ContainsIff(Lower(a), TRIGGERS[k]);
    var j :| OccursAt(Lower(a), TRIGGERS[k], j);
    OccursTrans(Lower(b), Lower(a), TRIGGERS[k], i, j);
    ContainsIff(Lower(b), TRIGGERS[k]);
  }

  /** The answer policy's fallback sentence asks for a retry. */
  lemma FallbackRetries()
    ensures ShouldRetry(Some("Not available in documents."))
  {
    var a := Lower("Not available in documents.");
    assert a[..26] == TRIGGERS[0];
  }
}
