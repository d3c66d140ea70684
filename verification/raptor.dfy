/** The summary placeholder: every record comes back as a copy carrying an
    empty "summary" entry, nothing else changed. */
module Raptor {
  import opened Json

  const SUMMARY := "summary"

  /** `raptor_summaries(docs)`. */
  function Summaries(docs: seq<map<string, Json>>): (r: seq<map<string, Json>>)
    ensures |r| == |docs|
    ensures forall k :: 0 <= k < |r| ==> SUMMARY in r[k] && r[k][SUMMARY] == JStr("")
    ensures forall k :: 0 <= k < |r| ==> r[k].Keys == docs[k].Keys + {SUMMARY}
    ensures forall k, key :: 0 <= k < |r| && key in docs[k] && key != SUMMARY ==> r[k][key] == docs[k][key]
  {
    seq(|docs|, k requires 0 <= k < |docs| => docs[k][SUMMARY := JStr("")])
  }

  /** The loop as written: copy each record, then set its summary. */
  method SummariesLoop(docs: seq<map<string, Json>>) returns (out: seq<map<string, Json>>)
    ensures out == Summaries(docs)
  {
    out := [];
    for i := 0 to |docs|
      invariant out == Summaries(docs[..i])
    {
      assert Summaries(docs[..i + 1]) == Summaries(docs[..i]) + [docs[i][SUMMARY := JStr("")]];
      out := out + [docs[i][SUMMARY := JStr("")]];
    }
    assert docs[..|docs|] == docs;
  }

  /** Running the placeholder twice is running it once. */
  lemma SummariesIdempotent(docs: seq<map<string, Json>>)
    ensures Summaries(Summaries(docs)) == Summaries(docs)
  {
    var once := Summaries(docs);
    var twice := Summaries(once);
    forall k | 0 <= k < |docs| ensures twice[k] == once[k] {
      assert twice[k].Keys == once[k].Keys;
    }
  }

  /** A record that already has a summary loses it: the later "summary" of
      the dictionary display wins over the one the record brings, and the
      record keeps its other entries and gains no new key. */
  lemma SummaryOverwritten(d: map<string, Json>)
    requires SUMMARY in d
    ensures Summaries([d])[0] == d[SUMMARY := JStr("")]
    ensures Summaries([d])[0].Keys == d.Keys
  {
  }
}
