/** The records passed between pipeline stages. A `DocChunk` is a value:
    every stage that rescores a chunk builds a new one. */
module Schemas {
  import opened Common
  import opened Json
  import opened Text
  import opened Seqs

  /** The provenance tags the code writes into `DocChunk.tag`. */
  const VECTOR := "vector"
  const BM25 := "bm25"
  const HYBRID := "hybrid"
  const FUSION := "fusion"
  const RERANK := "rerank"

  datatype DocChunk = DocChunk(
    id: string,
    text: string,
    source: string,
    chunkIndex: int := 0,
    score: real := 0.0,
    tag: string := VECTOR)   // the source's `method` field

  datatype RAGResult = RAGResult(
    query: string,
    answer: string,
    citations: seq<string> := [],
    docs: seq<DocChunk> := [],
    debug: Option<map<string, Json>> := None)

  /** One indexed chunk of a store (the `meta` entries both stores keep). */
  datatype ChunkMeta = ChunkMeta(id: string, source: string, chunkIndex: nat, text: string)

  /** The id both stores give chunk `i` of `source`: "{source}::chunk_{i}". */
  function ChunkId(source: string, i: nat): string {
    source + "::chunk_" + NatToString(i)
  }

  /** `d.model_copy()` followed by overwriting `score` and `method`. */
  function Rescored(d: DocChunk, score: real, tag: string): (r: DocChunk)
    ensures SameContent(r, d) && r.score == score && r.tag == tag
  {
    d.(score := score, tag := tag)
  }

  /** The fields no stage rewrites: id, text, source and chunk index. */
  predicate SameContent(a: DocChunk, b: DocChunk) {
    a.id == b.id && a.text == b.text && a.source == b.source && a.chunkIndex == b.chunkIndex
  }

  function Score(d: DocChunk): real { d.score }

  function Id(d: DocChunk): string { d.id }

  /** The ids of a list of chunks, in order. */
  function Ids(docs: seq<DocChunk>): seq<string> { Keys(docs, Id) }

  /** When every chunk of `f` is in `out`, every id of `f` is an id of `out`. */
  lemma IdsCover(f: seq<DocChunk>, out: seq<DocChunk>)
    requires forall i :: 0 <= i < |f| ==> f[i] in out
    ensures forall id :: id in Ids(f) ==> id in Ids(out)
  {
    forall id | id in Ids(f) ensures id in Ids(out) {
      var m :| 0 <= m < |f| && Ids(f)[m] == id;
      assert f[m] in out;
      var q :| 0 <= q < |out| && out[q] == f[m];
      assert Ids(out)[q] == id;
    }
  }

  /** A chunk built with only the required fields gets the declared defaults. */
  lemma ChunkDefaults(id: string, text: string, source: string)
    ensures var d := DocChunk(id, text, source);
      d.chunkIndex == 0 && d.score == 0.0 && d.tag == "vector"
  {
  }

  lemma ResultDefaults(query: string, answer: string)
    ensures var r := RAGResult(query, answer);
      r.citations == [] && r.docs == [] && r.debug == None
  {
  }
}
