/** Reciprocal rank fusion: every list gives the chunk at (0-based) rank `r`
    the weight 1 / (k + r + 1); a chunk's fused score is the sum of its
    weights over all lists; the fused chunks are sorted descending and cut
    to `top_k`. */
module Fusion {
  import opened Common
  import opened Seqs
  import opened Sorting
  import opened Schemas

  const DEFAULT_TOP_K: int := 5
  const DEFAULT_K: int := 60

  /** One element of one result list, with its position in that list. */
  datatype Hit = Hit(doc: DocChunk, rank: nat)

  function HitId(h: Hit): string { h.doc.id }

  /** `enumerate(docs)`. */
  function Ranked(docs: seq<DocChunk>): (r: seq<Hit>)
    ensures |r| == |docs|
    ensures forall i :: 0 <= i < |r| ==> r[i] == Hit(docs[i], i)
  {
    seq(|docs|, i requires 0 <= i < |docs| => Hit(docs[i], i))
  }

  /** The hits of all lists in the order the two loops visit them. */
  function Hits(sets: seq<seq<DocChunk>>): (r: seq<Hit>)
    ensures forall i :: 0 <= i < |r| ==> r[i].doc in Flatten(sets) && r[i].rank < |r|
  {
    if |sets| == 0 then []
    else
      var p := Hits(sets[..|sets| - 1]);
      var q := Ranked(sets[|sets| - 1]);
      FlattenSnoc(sets);
      p + q
  }

  /** No hit makes `k + rank + 1` zero, so no division fails. */
  predicate Divisible(hits: seq<Hit>, k: int) {
    forall i :: 0 <= i < |hits| ==> k + hits[i].rank + 1 != 0
  }

  function Weight(k: int, rank: nat): real
    requires k + rank + 1 != 0
  {
    1.0 / (k + rank + 1) as real
  }

  /** `scores[id]` together with `docs_map[id]`; the key order is that of
      `scores`, which is the order of first appearance. */
  datatype Acc = Acc(doc: DocChunk, score: real)

  function AccId(a: Acc): string { a.doc.id }

  /** One pass of the inner loop body: add the weight to the id's running
      score (0.0 when new) and remember this hit's chunk. */
  function Add(t: seq<Acc>, h: Hit, k: int): (r: seq<Acc>)
    requires k + h.rank + 1 != 0
    ensures Keys(r, AccId) == if h.doc.id in Keys(t, AccId) then Keys(t, AccId) else Keys(t, AccId) + [h.doc.id]
    ensures var i := FirstIdx(Keys(t, AccId), h.doc.id);
      r[i] == Acc(h.doc, (if i < |t| then t[i].score else 0.0) + Weight(k, h.rank))
    ensures forall j :: 0 <= j < |t| && t[j].doc.id != h.doc.id ==> r[j] == t[j]
  {
    var i := FirstIdx(Keys(t, AccId), h.doc.id);
    if i < |t| then t[i := Acc(h.doc, t[i].score + Weight(k, h.rank))]
    else t + [Acc(h.doc, 0.0 + Weight(k, h.rank))]
  }

  function Accumulate(hits: seq<Hit>, k: int): seq<Acc>
    requires Divisible(hits, k)
  {
    if |hits| == 0 then []
    else Add(Accumulate(hits[..|hits| - 1], k), hits[|hits| - 1], k)
  }

  /** The fused list before truncation: one rescored copy per id. */
  function FusedAll(t: seq<Acc>): (r: seq<DocChunk>)
    ensures |r| == |t|
    ensures forall i :: 0 <= i < |r| ==> r[i] == Rescored(t[i].doc, t[i].score, FUSION)
  {
    seq(|t|, i requires 0 <= i < |t| => Rescored(t[i].doc, t[i].score, FUSION))
  }

  /** `rrf_fusion(result_sets, top_k, k)`. A denominator of zero (possible
      only for a negative `k`) raises. */
  function RrfFusion(sets: seq<seq<DocChunk>>, topK: int := DEFAULT_TOP_K, k: int := DEFAULT_K): (r: Result<seq<DocChunk>>)
    ensures r.Err? <==> !Divisible(Hits(sets), k)
    ensures r.Err? ==> r.error == ZeroDivision
  {
    var hits := Hits(sets);
    if !Divisible(hits, k) then Err(ZeroDivision)
    else Ok(Take(SortDesc(FusedAll(Accumulate(hits, k)), Score), topK))
  }

  // ---------------------------------------------------------------------
  // Reference definition, id by id.

  /** The formula of the docstring: the sum of 1 / (k + rank + 1) over the
      hits carrying `id`. */
  function RrfScore(hits: seq<Hit>, k: int, id: string): real
    requires Divisible(hits, k)
  {
    if |hits| == 0 then 0.0
    else
      var h := hits[|hits| - 1];
      RrfScore(hits[..|hits| - 1], k, id) + (if h.doc.id == id then Weight(k, h.rank) else 0.0)
  }

  /** What the accumulation holds for `id`: the chunk of its last hit and its
      reciprocal-rank sum. */
  function ExpectedAcc(hits: seq<Hit>, k: int, id: string): (a: Acc)
    requires Divisible(hits, k) && id in Keys(hits, HitId)
    ensures a.doc.id == id
  {
    Acc(hits[LastIdx(Keys(hits, HitId), id)].doc, RrfScore(hits, k, id))
  }

  function SpecAcc(hits: seq<Hit>, k: int): (r: seq<Acc>)
    requires Divisible(hits, k)
    ensures Keys(r, AccId) == Dedup(Keys(hits, HitId))
  {
    var ids := Dedup(Keys(hits, HitId));
    DedupCorrect(Keys(hits, HitId));
    seq(|ids|, i requires 0 <= i < |ids| => ExpectedAcc(hits, k, ids[i]))
  }

  lemma HitIdsStep(hits: seq<Hit>)
    requires |hits| > 0
    ensures var n := |hits| - 1;
      var ks', ks := Keys(hits[..n], HitId), Keys(hits, HitId);
      var ids', ids := Dedup(ks'), Dedup(ks);
      && ks == ks' + [hits[n].doc.id]
      && (hits[n].doc.id in ks' ==> ids == ids' && hits[n].doc.id in ids')
      && (hits[n].doc.id !in ks' ==> ids == ids' + [hits[n].doc.id] && hits[n].doc.id !in ids')
      && (forall j :: 0 <= j < |ids'| ==> ids'[j] in ks')
      && (forall i, j :: 0 <= i < j < |ids'| ==> ids'[i] != ids'[j])
  {
    var n := |hits| - 1;
    var ks' := Keys(hits[..n], HitId);
    assert Keys(hits, HitId) == ks' + [hits[n].doc.id];
    DedupSnoc(ks', hits[n].doc.id);
    DedupCorrect(ks');
  }

  lemma LastIdxSnoc(s: seq<string>, x: string, id: string)
    requires id in s + [x]
    ensures LastIdx(s + [x], id) == if id == x then |s| else LastIdx(s, id)
  {
    assert (s + [x])[..|s|] == s;
  }

  /** A hit leaves the reference entry of every other id unchanged. */
  lemma ExpectedOther(hits: seq<Hit>, k: int, id: string)
    requires |hits| > 0 && Divisible(hits, k)
    requires id in Keys(hits[..|hits| - 1], HitId) && id != hits[|hits| - 1].doc.id
    ensures id in Keys(hits, HitId)
    ensures ExpectedAcc(hits, k, id) == ExpectedAcc(hits[..|hits| - 1], k, id)
  {
    var n := |hits| - 1;
    assert Keys(hits, HitId) == Keys(hits[..n], HitId) + [hits[n].doc.id];
    LastIdxSnoc(Keys(hits[..n], HitId), hits[n].doc.id, id);
  }

  /** The hit's own id gets this hit's chunk and its weight on top. */
  lemma ExpectedLast(hits: seq<Hit>, k: int)
    requires |hits| > 0 && Divisible(hits, k)
    ensures var n := |hits| - 1; var h := hits[n];
      ExpectedAcc(hits, k, h.doc.id) ==
      Acc(h.doc, (if h.doc.id in Keys(hits[..n], HitId) then RrfScore(hits[..n], k, h.doc.id) else 0.0) + Weight(k, h.rank))
  {
    var n := |hits| - 1;
    var h := hits[n];
    assert Keys(hits, HitId) == Keys(hits[..n], HitId) + [h.doc.id];
    LastIdxSnoc(Keys(hits[..n], HitId), h.doc.id, h.doc.id);
    if h.doc.id !in Keys(hits[..n], HitId) {
      RrfScoreAbsent(hits[..n], k, h.doc.id);
    }
  }

  /** An id with no hits scores 0. */
  lemma {:induction false} RrfScoreAbsent(hits: seq<Hit>, k: int, id: string)
    requires Divisible(hits, k) && id !in Keys(hits, HitId)
    ensures RrfScore(hits, k, id) == 0.0
  {
    if |hits| > 0 {
      var n := |hits| - 1;
      assert Keys(hits[..n], HitId) == Keys(hits, HitId)[..n];
      RrfScoreAbsent(hits[..n], k, id);
    }
  }

  /** One entry after one hit: an entry of another id is untouched. */
  lemma AddAtOther(hits: seq<Hit>, k: int, t: seq<Acc>, j: nat)
    requires |hits| > 0 && Divisible(hits, k)
    requires var n := |hits| - 1; t == SpecAcc(hits[..n], k)
    requires j < |t| && t[j].doc.id != hits[|hits| - 1].doc.id
    ensures var n := |hits| - 1; var r := Add(t, hits[n], k);
      j < |r| && j < |SpecAcc(hits, k)| && r[j] == SpecAcc(hits, k)[j]
  {
    var n := |hits| - 1;
    var h := hits[n];
    var ids' := Dedup(Keys(hits[..n], HitId));
    var ids := Dedup(Keys(hits, HitId));
    var r := Add(t, h, k);
    HitIdsStep(hits);
    assert Keys(t, AccId) == ids';
    assert Keys(r, AccId) == ids;
    assert ids[j] == ids'[j];
    ExpectedOther(hits, k, ids'[j]);
    assert r[j] == t[j];
  }

  /** One entry after one hit: the hit's own entry is updated or created. */
  lemma AddAtOwn(hits: seq<Hit>, k: int, t: seq<Acc>, j: nat)
    requires |hits| > 0 && Divisible(hits, k)
    requires var n := |hits| - 1; t == SpecAcc(hits[..n], k)
    requires j < |Dedup(Keys(hits, HitId))| && Dedup(Keys(hits, HitId))[j] == hits[|hits| - 1].doc.id
    ensures var n := |hits| - 1; var r := Add(t, hits[n], k);
      j < |r| && j < |SpecAcc(hits, k)| && r[j] == SpecAcc(hits, k)[j]
  {
    var n := |hits| - 1;
    var h := hits[n];
    var ids' := Dedup(Keys(hits[..n], HitId));
    var ids := Dedup(Keys(hits, HitId));
    var r := Add(t, h, k);
    HitIdsStep(hits);
    assert Keys(t, AccId) == ids';
    assert Keys(r, AccId) == ids;
    assert j == FirstIdx(ids', h.doc.id);
    ExpectedLast(hits, k);
    assert r[j] == Acc(h.doc, (if j < |t| then t[j].score else 0.0) + Weight(k, h.rank));
  }

  lemma AddAt(hits: seq<Hit>, k: int, t: seq<Acc>, j: nat)
    requires |hits| > 0 && Divisible(hits, k)
    requires var n := |hits| - 1; t == SpecAcc(hits[..n], k)
    requires j < |Dedup(Keys(hits, HitId))|
    ensures var n := |hits| - 1; var r := Add(t, hits[n], k);
      |r| == |Dedup(Keys(hits, HitId))| && r[j] == SpecAcc(hits, k)[j]
  {
    var n := |hits| - 1;
    var ids := Dedup(Keys(hits, HitId));
    var r := Add(t, hits[n], k);
    assert Keys(r, AccId) == ids by { HitIdsStep(hits); }
    if j < |t| && t[j].doc.id != hits[n].doc.id {
      AddAtOther(hits, k, t, j);
    } else {
      assert ids[j] == hits[n].doc.id by {
        HitIdsStep(hits);
        assert Keys(t, AccId) == Dedup(Keys(hits[..n], HitId));
      }
      AddAtOwn(hits, k, t, j);
    }
  }

  /** The two loops accumulate exactly the reference entries, in order of
      first appearance. */
  lemma {:induction false} AccumulateSpec(hits: seq<Hit>, k: int)
    requires Divisible(hits, k)
    ensures Accumulate(hits, k) == SpecAcc(hits, k)
  {
    if |hits| == 0 {
      assert Keys(hits, HitId) == [];
    } else {
      var n := |hits| - 1;
      AccumulateSpec(hits[..n], k);
      var t := Accumulate(hits[..n], k);
      var r := Accumulate(hits, k);
      var spec := SpecAcc(hits, k);
      assert r == Add(t, hits[n], k);
      forall j | 0 <= j < |spec| ensures |r| == |spec| && r[j] == spec[j] {
        AddAt(hits, k, t, j);
      }
      assert |r| == |spec| by {
        assert |Keys(r, AccId)| == |Keys(t, AccId)| + (if hits[n].doc.id in Keys(t, AccId) then 0 else 1);
      }
    }
  }

  // ---------------------------------------------------------------------
  // What `rrf_fusion` returns.

  /** The reference for one output chunk: the last chunk seen for `id`,
      carrying its reciprocal-rank sum and tag "fusion". */
  function FusedOf(hits: seq<Hit>, k: int, id: string): (d: DocChunk)
    requires Divisible(hits, k) && id in Dedup(Keys(hits, HitId))
    ensures d.id == id
  {
    DedupCorrect(Keys(hits, HitId));
    var a := ExpectedAcc(hits, k, id);
    Rescored(a.doc, a.score, FUSION)
  }

  lemma FusedAllSpec(hits: seq<Hit>, k: int)
    requires Divisible(hits, k)
    ensures var ids := Dedup(Keys(hits, HitId));
      var f := FusedAll(Accumulate(hits, k));
      && |f| == |ids|
      && (forall i :: 0 <= i < |f| ==> f[i] == FusedOf(hits, k, ids[i]))
      && Ids(f) == ids
      && DistinctKeys(f, Id)
  {
    var ids := Dedup(Keys(hits, HitId));
    var f := FusedAll(Accumulate(hits, k));
    AccumulateSpec(hits, k);
    DedupCorrect(Keys(hits, HitId));
    assert forall i :: 0 <= i < |f| ==> f[i].id == ids[i];
  }

  /** What `rrf_fusion` promises when no division fails: distinct ids, each
      the fused copy of the last chunk seen for it with its reciprocal-rank
      sum, sorted descending, `min(top_k, #ids)` long, every id present when
      top_k covers them all, and equal scores left in order of first
      appearance. */
  lemma RrfCorrect(sets: seq<seq<DocChunk>>, topK: int, k: int)
    requires Divisible(Hits(sets), k)
    ensures var hits := Hits(sets);
      var ids := Dedup(Keys(hits, HitId));
      var f := FusedAll(Accumulate(hits, k));
      var out := RrfFusion(sets, topK, k).value;
      && DistinctKeys(out, Id)
      && SortedDesc(out, Score)
      && (topK >= 0 ==> |out| == Min(topK, |ids|))
      && (forall i :: 0 <= i < |out| ==> out[i].id in ids && out[i] == FusedOf(hits, k, out[i].id))
      && (topK >= |ids| ==> forall id :: id in ids ==> id in Ids(out))
      && (forall c :: Ties(SortDesc(f, Score), Score, c) == Ties(f, Score, c))
  {
    var hits := Hits(sets);
    var ids := Dedup(Keys(hits, HitId));
    var f := FusedAll(Accumulate(hits, k));
    var out := RrfFusion(sets, topK, k).value;
    FusedAllSpec(hits, k);
    TopKOfDistinct(f, Score, Id, topK);
    SortDescCorrect(f, Score);
    forall i | 0 <= i < |out| ensures out[i].id in ids && out[i] == FusedOf(hits, k, out[i].id) {
      var m :| 0 <= m < |f| && f[m] == out[i];
    }
    if topK >= |ids| {
      IdsCover(f, out);
    }
  }

  /** With a non-negative `k` (the default is 60) no denominator is zero. */
  lemma RrfNonNegativeK(sets: seq<seq<DocChunk>>, topK: int, k: int)
    requires k >= 0
    ensures RrfFusion(sets, topK, k).Ok?
  {
  }

  /** A chunk listed exactly once, at rank `r`, scores 1 / (k + r + 1). */
  lemma {:induction false} RrfScoreSingle(hits: seq<Hit>, k: int, p: nat)
    requires Divisible(hits, k) && p < |hits|
    requires forall q :: 0 <= q < |hits| && q != p ==> hits[q].doc.id != hits[p].doc.id
    ensures RrfScore(hits, k, hits[p].doc.id) == Weight(k, hits[p].rank)
  {
    var n := |hits| - 1;
    var id := hits[p].doc.id;
    if p == n {
      assert id !in Keys(hits[..n], HitId);
      RrfScoreAbsent(hits[..n], k, id);
    } else {
      RrfScoreSingle(hits[..n], k, p);
    }
  }

  /** With a non-negative `k` every chunk that was listed scores above 0, and
      each further listing adds to its score. */
  lemma {:induction false} RrfScorePositive(hits: seq<Hit>, k: int, id: string)
    requires k >= 0 && id in Keys(hits, HitId)
    ensures RrfScore(hits, k, id) > 0.0
  {
    var n := |hits| - 1;
    var h := hits[n];
    if id in Keys(hits[..n], HitId) {
      RrfScorePositive(hits[..n], k, id);
      RrfScoreNonNegative(hits[..n], k, id);
    } else {
      assert h.doc.id == id;
      RrfScoreAbsent(hits[..n], k, id);
    }
  }

  lemma {:induction false} RrfScoreNonNegative(hits: seq<Hit>, k: int, id: string)
    requires k >= 0
    ensures RrfScore(hits, k, id) >= 0.0
  {
    if |hits| > 0 {
      RrfScoreNonNegative(hits[..|hits| - 1], k, id);
    }
  }
}
