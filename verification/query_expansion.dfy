/** Query expansion: the model's reply, one query per line, cleaned up and
    guaranteed to contain the original query unless the cap cuts it off. */
module QueryExpansion {
  import opened Common
  import opened Text
  import opened Oracle

  const DEFAULT_N: int := 3

  /** `[l.strip() for l in pieces if l.strip()]`. */
  function NonBlank(pieces: seq<string>): (r: seq<string>)
    ensures |r| <= |pieces|
    ensures forall k :: 0 <= k < |r| ==> r[k] != "" && Strip(r[k]) == r[k]
  {
    if pieces == [] then []
    else
      var l := Strip(pieces[0]);
      StripIdempotent(pieces[0]);
      (if l == "" then [] else [l]) + NonBlank(pieces[1..])
  }

  /** A line is kept exactly when it is the stripped form of a non-blank piece. */
  lemma {:induction false} NonBlankMembers(pieces: seq<string>, x: string)
    ensures x in NonBlank(pieces) <==> x != "" && exists k :: 0 <= k < |pieces| && Strip(pieces[k]) == x
  {
    if pieces != [] {
      NonBlankMembers(pieces[1..], x);
      if exists k :: 0 <= k < |pieces[1..]| && Strip(pieces[1..][k]) == x {
        var k :| 0 <= k < |pieces[1..]| && Strip(pieces[1..][k]) == x;
        assert Strip(pieces[k + 1]) == x;
      }
      if exists k :: 0 <= k < |pieces| && Strip(pieces[k]) == x {
        var k :| 0 <= k < |pieces| && Strip(pieces[k]) == x;
        if k > 0 {
          assert Strip(pieces[1..][k - 1]) == x;
        }
      }
    }
  }

  /** The candidate lines of a reply: stripped, split on line breaks, each
      line stripped, blank lines dropped. */
  function Lines(reply: string): seq<string> {
    NonBlank(Split(Strip(reply), '\n'))
  }

  /** The lines with the stripped query put in front unless already present. */
  function WithQuery(lines: seq<string>, query: string): (r: seq<string>)
    ensures Strip(query) in r
    ensures Strip(query) in lines ==> r == lines
    ensures Strip(query) !in lines ==> r == [Strip(query)] + lines
  {
    var q := Strip(query);
    if q in lines then lines else [q] + lines
  }

  /** `expand_queries(llm, query, n)`. */
  function ExpandQueries(llm: Llm, query: string, n: int := DEFAULT_N): (r: seq<string>)
    ensures 1 <= |r| <= Max(1, n)
  {
    Take(WithQuery(Lines(llm(ExpansionPrompt(query, n))), query), Max(1, n))
  }

  /** The result is the first `max(1, n)` entries of the query-completed
      lines; every entry is stripped, and every entry but the inserted query
      is non-blank and comes from the reply. */
  lemma ExpandShape(llm: Llm, query: string, n: int)
    ensures var lines, r := Lines(llm(ExpansionPrompt(query, n))), ExpandQueries(llm, query, n);
      r == WithQuery(lines, query)[..|r|]
      && |r| == Min(Max(1, n), |WithQuery(lines, query)|)
      && (forall k :: 0 <= k < |r| ==> Strip(r[k]) == r[k])
      && (forall k :: 0 <= k < |r| ==> r[k] == Strip(query) || (r[k] != "" && r[k] in lines))
  {
    var lines := Lines(llm(ExpansionPrompt(query, n)));
    var w := WithQuery(lines, query);
    var r := ExpandQueries(llm, query, n);
    WithQueryEntries(lines, query);
    forall k | 0 <= k < |r| ensures Strip(r[k]) == r[k] && (r[k] == Strip(query) || (r[k] != "" && r[k] in lines)) {
      assert r[k] == w[k];
    }
  }

  lemma WithQueryEntries(lines: seq<string>, query: string)
    requires forall k :: 0 <= k < |lines| ==> lines[k] != "" && Strip(lines[k]) == lines[k]
    ensures var w := WithQuery(lines, query);
      forall k :: 0 <= k < |w| ==> Strip(w[k]) == w[k] && (w[k] == Strip(query) || (w[k] != "" && w[k] in lines))
  {
    StripIdempotent(query);
    var w := WithQuery(lines, query);
    if Strip(query) !in lines {
      forall k | 0 < k < |w| ensures w[k] == lines[k - 1] {
      }
    }
  }

  /** When the reply does not already hold the query, the query comes first. */
  lemma QueryFirstWhenMissing(llm: Llm, query: string, n: int)
    requires Strip(query) !in Lines(llm(ExpansionPrompt(query, n)))
    ensures ExpandQueries(llm, query, n)[0] == Strip(query)
  {
  }

  /** A reply that repeats the query only after `max(1, n)` other lines
      pushes the query out of the result. */
  lemma QueryCutOff(llm: Llm, query: string, a: string, b: string)
    requires Lines(llm(ExpansionPrompt(query, 2))) == [a, b, Strip(query)]
    requires a != Strip(query) && b != Strip(query)
    ensures Strip(query) !in ExpandQueries(llm, query, 2)
  {
    assert ExpandQueries(llm, query, 2) == [a, b];
  }
}
