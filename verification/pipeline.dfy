/** The pipeline: hybrid retrieval with optional reranking, answering a
    question over what was retrieved, and exploring the corpus through a
    fixed set of probe queries. */
module Pipeline {
  import opened Common
  import opened Seqs
  import opened Json
  import opened Oracle
  import opened Schemas
  import opened Config
  import opened Sorting
  import opened Hybrid
  import opened Reranker
  import opened Answer
  import opened Explore

  /** What the pipeline is built from: the two stores' searches, the model
      and the JSON decoder its parsers use. */
  datatype Backends = Backends(vsearch: Search, bsearch: Search, llm: Llm, decode: string -> Option<Json>)

  /** The queries `explore` retrieves for, in order. */
  const PROBES: seq<string> := [
    "summary key points",
    "risk factors recommendations",
    "pregnancy complications outcomes",
    "screening diagnosis monitoring",
    "treatment guidance management"]

  /** How many distinct chunks `explore` hands on. */
  const MAX_GATHERED: int := 18

  /** `retrieve_only(query)`: the hybrid result, reranked when the switch is on. */
  function RetrieveOnly(s: Settings, b: Backends, query: string): (r: Result<seq<DocChunk>>)
    ensures var pool := s.topK * DEFAULT_POOL_MULT;
      r.Ok? <==> b.vsearch(query, pool).Ok? && b.bsearch(query, pool).Ok?
    ensures r.Ok? && !s.enableRerank ==>
      DistinctKeys(r.value, Id) && SortedDesc(r.value, Score)
      && (forall d :: d in r.value ==> d.tag == HYBRID)
      && (s.topK >= 0 ==> |r.value| <= s.topK)
    ensures r.Ok? && s.enableRerank ==>
      |r.value| <= Max(1, s.topK) && forall d :: d in r.value ==> d.tag == RERANK
  {
    var docs :- HybridRetrieve(query, b.vsearch, b.bsearch, s.topK, s.alpha);
    if s.enableRerank then
      var r := Rerank(b.llm, b.decode, query, docs, s.topK);
      assert forall d :: d in r ==> d.tag == RERANK by {
        if |docs| > 0 {
          RerankPicks(b.llm, b.decode, query, docs, s.topK);
        }
      }
      Ok(r)
    else Ok(docs)
  }

  /** Reranking only picks among the candidates: every chunk it returns
      has a candidate's content and score, and it returns nothing exactly
      when there are no candidates. */
  lemma RerankFromCandidates(llm: Llm, decode: string -> Option<Json>, query: string, docs: seq<DocChunk>, topK: int)
    ensures var r := Rerank(llm, decode, query, docs, topK);
      (docs == [] <==> r == [])
      && forall i :: 0 <= i < |r| ==> exists c :: c in docs && SameContent(r[i], c) && r[i].score == c.score
  {
    var r := Rerank(llm, decode, query, docs, topK);
    if |docs| > 0 {
      RerankPicks(llm, decode, query, docs, topK);
      var o := Chosen(Ranking(decode, Reply(llm, query, docs)), |docs|, topK);
      forall i | 0 <= i < |r| ensures exists c :: c in docs && SameContent(r[i], c) && r[i].score == c.score {
        assert docs[o[i]] in docs;
      }
    }
  }

  /** With reranking on, the pipeline returns the reranked hybrid result. */
  lemma RerankedIsRerank(s: Settings, b: Backends, query: string)
    requires s.enableRerank
    requires b.vsearch(query, s.topK * DEFAULT_POOL_MULT).Ok? && b.bsearch(query, s.topK * DEFAULT_POOL_MULT).Ok?
    ensures var docs := HybridRetrieve(query, b.vsearch, b.bsearch, s.topK, s.alpha).value;
      RetrieveOnly(s, b, query).value == Rerank(b.llm, b.decode, query, docs, s.topK)
  {
  }

  /** With reranking off, the pipeline returns the hybrid result as it is. */
  lemma PlainIsHybrid(s: Settings, b: Backends, query: string)
    requires !s.enableRerank
    ensures RetrieveOnly(s, b, query) == HybridRetrieve(query, b.vsearch, b.bsearch, s.topK, s.alpha)
  {
  }

  /** `run(query)`: the answer, its citations and the chunks it was given. */
  function Run(s: Settings, b: Backends, query: string): (r: Result<(string, seq<string>, seq<DocChunk>)>)
    ensures r.Ok? <==> RetrieveOnly(s, b, query).Ok?
    ensures r.Ok? ==> r.value.2 == RetrieveOnly(s, b, query).value
    ensures r.Ok? ==> (r.value.0, r.value.1) == GenerateAnswer(b.llm, query, r.value.2)
  {
    var docs :- RetrieveOnly(s, b, query);
    var (answer, citations) := GenerateAnswer(b.llm, query, docs);
    Ok((answer, citations, docs))
  }

  /** The answer `run` gives is the fallback sentence or a reply the policy
      lets through, and the citations name sources of the returned chunks. */
  lemma RunAnswerShape(s: Settings, b: Backends, query: string)
    requires b.vsearch(query, s.topK * DEFAULT_POOL_MULT).Ok? && b.bsearch(query, s.topK * DEFAULT_POOL_MULT).Ok?
    ensures var (a, cites, docs) := Run(s, b, query).value;
      (a == NOT_AVAILABLE || (a != "" && !Declines(a)))
      && forall c :: c in cites ==> exists d :: d in docs && d.source == c
  {
    var docs := Run(s, b, query).value.2;
    AnswerPassesPolicy(b.llm, query, docs);
  }

  /** The chunk's place in the corpus: its document and its position there. */
  function Place(d: DocChunk): (string, int) { (d.source, d.chunkIndex) }

  /** `f` applied to each query in order; the first failure stops the loop. */
  function EachOf<T>(f: string -> Result<T>, qs: seq<string>): (r: Result<seq<T>>)
    ensures r.Ok? <==> forall i :: 0 <= i < |qs| ==> f(qs[i]).Ok?
    ensures r.Ok? ==> |r.value| == |qs| && forall i :: 0 <= i < |qs| ==> r.value[i] == f(qs[i]).value
    ensures r.Err? ==>
      exists i :: 0 <= i < |qs| && f(qs[i]).Err? && r.error == f(qs[i]).error && (forall j :: 0 <= j < i ==> f(qs[j]).Ok?)
  {
    if qs == [] then Ok([])
    else
      var first :- f(qs[0]);
      var rest :- EachOf(f, qs[1..]);
      assert forall i :: 1 <= i < |qs| ==> qs[1..][i - 1] == qs[i];
      Ok([first] + rest)
  }

  /** The batches, one per probe query. */
  function Probe(s: Settings, b: Backends): Result<seq<seq<DocChunk>>> {
    EachOf(q => RetrieveOnly(s, b, q), PROBES)
  }

  /** The chunks of the batches in order, a chunk whose place was already
      seen skipped, at most `MAX_GATHERED` kept. */
  function Gathered(batches: seq<seq<DocChunk>>): (g: seq<DocChunk>)
    ensures |g| <= MAX_GATHERED
  {
    Take(DedupBy(Flatten(batches), Place), MAX_GATHERED)
  }

  /** The gathered chunks sit at different places, each is the first
      retrieved chunk at its place, and a place that was retrieved is
      missing only when the cap was reached. */
  lemma GatheredSpec(batches: seq<seq<DocChunk>>)
    ensures var all, g := Flatten(batches), Gathered(batches);
      DistinctKeys(g, Place)
      && (forall m :: 0 <= m < |g| ==> Place(g[m]) in Keys(all, Place) && g[m] == all[FirstIdx(Keys(all, Place), Place(g[m]))])
      && (forall i :: 0 <= i < |all| ==> Place(all[i]) in Keys(g, Place) || |g| == MAX_GATHERED)
  {
    var all := Flatten(batches);
    var d := DedupBy(all, Place);
    var g := Gathered(batches);
    DedupByDistinct(all, Place);
    DedupByFirst(all, Place);
    assert g == d[..|g|];
    KeysPrefix(d, Place, |g|);
    forall i | 0 <= i < |all| ensures Place(all[i]) in Keys(g, Place) || |g| == MAX_GATHERED {
      if |g| < MAX_GATHERED {
        assert g == d;
      }
    }
  }

  /** `explore()`: the gathered chunks explored. */
  function ExploreAll(s: Settings, b: Backends): (r: Result<Exploration>)
    ensures Probe(s, b).Err? ==> r == Err(Probe(s, b).error)
    ensures Probe(s, b).Ok? ==> r == ExploreDocument(b.llm, b.decode, Gathered(Probe(s, b).value))
    ensures r.Ok? ==> Capped(r.value)
  {
    var batches :- Probe(s, b);
    ExploreDocument(b.llm, b.decode, Gathered(batches))
  }

  /** The gathering loop as written: a set of seen places and a list that
      grows by each chunk whose place is new. */
  method GatherLoop(batches: seq<seq<DocChunk>>) returns (gathered: seq<DocChunk>)
    ensures gathered == DedupBy(Flatten(batches), Place)
  {
    gathered := [];
    var seen: set<(string, int)> := {};
    for i := 0 to |batches|
      invariant gathered == DedupBy(Flatten(batches[..i]), Place)
      invariant forall p :: p in seen <==> p in Keys(gathered, Place)
    {
      gathered, seen := GatherBatch(Flatten(batches[..i]), gathered, seen, batches[i]);
      assert batches[..i + 1][..i] == batches[..i];
      FlattenSnoc(batches[..i + 1]);
    }
    assert batches[..|batches|] == batches;
  }

  /** The inner loop: one probe's chunks, after the chunks in `done`. */
  method GatherBatch(ghost done: seq<DocChunk>, gathered0: seq<DocChunk>, seen0: set<(string, int)>, docs: seq<DocChunk>)
    returns (gathered: seq<DocChunk>, seen: set<(string, int)>)
    requires gathered0 == DedupBy(done, Place)
    requires forall p :: p in seen0 <==> p in Keys(gathered0, Place)
    ensures gathered == DedupBy(done + docs, Place)
    ensures forall p :: p in seen <==> p in Keys(gathered, Place)
  {
    gathered, seen := gathered0, seen0;
    ghost var prefix := done;
    for j := 0 to |docs|
      invariant prefix == done + docs[..j]
      invariant gathered == DedupBy(prefix, Place)
      invariant forall p :: p in seen <==> p in Keys(gathered, Place)
    {
      var d := docs[j];
      GatherStep(prefix, gathered, seen, d);
      if Place(d) !in seen {
        seen := seen + {Place(d)};
        gathered := gathered + [d];
      }
      assert docs[..j + 1] == docs[..j] + [d];
      prefix := prefix + [d];
    }
    assert docs[..|docs|] == docs;
  }

  /** One step of the inner loop. */
  lemma GatherStep(prefix: seq<DocChunk>, gathered: seq<DocChunk>, seen: set<(string, int)>, d: DocChunk)
    requires gathered == DedupBy(prefix, Place)
    requires forall p :: p in seen <==> p in Keys(gathered, Place)
    ensures Place(d) in seen ==> gathered == DedupBy(prefix + [d], Place)
    ensures Place(d) !in seen ==> (gathered + [d] == DedupBy(prefix + [d], Place) &&
      forall p :: p in seen + {Place(d)} <==> p in Keys(gathered + [d], Place))
  {
    DedupBySnoc(prefix, d, Place);
    KeysSnoc(gathered, d, Place);
  }
}
