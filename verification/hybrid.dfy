/** Hybrid retrieval: min-max normalise the vector and the BM25 candidate
    scores separately, merge the two lists by chunk id, blend the two
    normalised scores with weight `alpha`, sort descending and keep `top_k`. */
module Hybrid {
  import opened Common
  import opened Seqs
  import opened Sorting
  import opened Schemas

  const EPSILON: real := 0.000000001
  const DEFAULT_ALPHA: real := 0.55
  const DEFAULT_TOP_K: int := 5
  const DEFAULT_POOL_MULT: int := 4

  /** A backend's `search(query, k)`; a failure is the exception it raises. */
  type Search = (string, int) -> Result<seq<DocChunk>>

  function SeqMin(v: seq<real>): (r: real)
    requires |v| > 0
    ensures forall i :: 0 <= i < |v| ==> r <= v[i]
    ensures r in v
  {
    if |v| == 1 then v[0]
    else var m := SeqMin(v[1..]); if v[0] <= m then v[0] else m
  }

  function SeqMax(v: seq<real>): (r: real)
    requires |v| > 0
    ensures forall i :: 0 <= i < |v| ==> v[i] <= r
    ensures r in v
  {
    if |v| == 1 then v[0]
    else var m := SeqMax(v[1..]); if v[0] >= m then v[0] else m
  }

  /** The list of all values within EPSILON of each other. */
  predicate Degenerate(vals: seq<real>)
    requires |vals| > 0
  {
    SeqMax(vals) - SeqMin(vals) < EPSILON
  }

  /** Where `x` sits between `lo` and `hi`, as a fraction. */
  function Scale(x: real, lo: real, hi: real): real
    requires lo < hi
  {
    (x - lo) / (hi - lo)
  }

  /** `_minmax_norm`. */
  function MinMaxNorm(vals: seq<real>): (r: seq<real>)
    ensures |r| == |vals|
    ensures |vals| > 0 && Degenerate(vals) ==> forall i :: 0 <= i < |r| ==> r[i] == 1.0
    ensures |vals| > 0 && !Degenerate(vals) ==>
              forall i :: 0 <= i < |r| ==> r[i] == Scale(vals[i], SeqMin(vals), SeqMax(vals))
    ensures forall i :: 0 <= i < |r| ==> 0.0 <= r[i] <= 1.0
  {
    if |vals| == 0 then []
    else
      var lo, hi := SeqMin(vals), SeqMax(vals);
      if hi - lo < EPSILON then seq(|vals|, _ => 1.0)
      else
        var r := seq(|vals|, i requires 0 <= i < |vals| => Scale(vals[i], lo, hi));
        assert forall i :: 0 <= i < |vals| ==> 0.0 <= r[i] <= 1.0 by {
          forall i | 0 <= i < |vals| ensures 0.0 <= r[i] <= 1.0 {
            DivBounds(vals[i] - lo, hi - lo);
          }
        }
        r
  }

  lemma DivBounds(a: real, d: real)
    requires d > 0.0 && 0.0 <= a <= d
    ensures 0.0 <= a / d <= 1.0
  {
  }

  lemma DivOrder(a: real, b: real, d: real)
    requires d > 0.0
    ensures a <= b <==> a / d <= b / d
    ensures a == b <==> a / d == b / d
  {
    if a / d <= b / d {
      assert a == (a / d) * d && b == (b / d) * d;
    }
    if a / d == b / d {
      assert a == (a / d) * d && b == (b / d) * d;
    }
  }

  lemma ScaleEnds(x: real, lo: real, hi: real)
    requires lo < hi
    ensures Scale(x, lo, hi) == 0.0 <==> x == lo
    ensures Scale(x, lo, hi) == 1.0 <==> x == hi
  {
    DivOrder(x - lo, 0.0, hi - lo);
    DivOrder(x - lo, hi - lo, hi - lo);
    assert (hi - lo) / (hi - lo) == 1.0;
  }

  lemma ScaleOrder(x: real, y: real, lo: real, hi: real)
    requires lo < hi
    ensures x <= y <==> Scale(x, lo, hi) <= Scale(y, lo, hi)
  {
    DivOrder(x - lo, y - lo, hi - lo);
  }

  /** Outside the degenerate case the normaliser sends exactly the minima to
      0 and exactly the maxima to 1. */
  lemma MinMaxNormEnds(vals: seq<real>)
    requires |vals| > 0 && !Degenerate(vals)
    ensures forall i :: 0 <= i < |vals| ==> (MinMaxNorm(vals)[i] == 0.0 <==> vals[i] == SeqMin(vals))
    ensures forall i :: 0 <= i < |vals| ==> (MinMaxNorm(vals)[i] == 1.0 <==> vals[i] == SeqMax(vals))
  {
    var lo, hi := SeqMin(vals), SeqMax(vals);
    var r := MinMaxNorm(vals);
    forall i | 0 <= i < |vals|
      ensures r[i] == 0.0 <==> vals[i] == lo
      ensures r[i] == 1.0 <==> vals[i] == hi
    {
      ScaleEnds(vals[i], lo, hi);
    }
  }

  /** Outside the degenerate case the normaliser preserves and reflects order. */
  lemma MinMaxNormMonotone(vals: seq<real>)
    requires |vals| > 0 && !Degenerate(vals)
    ensures forall i, j :: 0 <= i < |vals| && 0 <= j < |vals| ==>
              (vals[i] <= vals[j] <==> MinMaxNorm(vals)[i] <= MinMaxNorm(vals)[j])
  {
    var lo, hi := SeqMin(vals), SeqMax(vals);
    var r := MinMaxNorm(vals);
    forall i, j | 0 <= i < |vals| && 0 <= j < |vals|
      ensures vals[i] <= vals[j] <==> r[i] <= r[j]
    {
      ScaleOrder(vals[i], vals[j], lo, hi);
    }
  }

  /** One value of the `merged` dict: the chunk kept and both normalised scores. */
  datatype Entry = Entry(doc: DocChunk, v: real, b: real)

  function EntryId(e: Entry): string { e.doc.id }

  /** `merged[d.id] = {"doc": d, "v": s, "b": 0.0}`: replaces the value in
      place (keeping the key's position) or appends a new key. */
  function PutVector(t: seq<Entry>, d: DocChunk, s: real): (r: seq<Entry>)
    ensures Keys(r, EntryId) == if d.id in Keys(t, EntryId) then Keys(t, EntryId) else Keys(t, EntryId) + [d.id]
    ensures r[FirstIdx(Keys(t, EntryId), d.id)] == Entry(d, s, 0.0)
    ensures forall k :: 0 <= k < |t| && t[k].doc.id != d.id ==> r[k] == t[k]
  {
    var i := FirstIdx(Keys(t, EntryId), d.id);
    if i < |t| then t[i := Entry(d, s, 0.0)] else t + [Entry(d, s, 0.0)]
  }

  /** The BM25 loop body: a new id gets a fresh value with `v` 0.0; a known
      id keeps its chunk and only has `b` overwritten. */
  function PutBm25(t: seq<Entry>, d: DocChunk, s: real): (r: seq<Entry>)
    ensures Keys(r, EntryId) == if d.id in Keys(t, EntryId) then Keys(t, EntryId) else Keys(t, EntryId) + [d.id]
    ensures var i := FirstIdx(Keys(t, EntryId), d.id);
      r[i] == if i < |t| then t[i].(b := s) else Entry(d, 0.0, s)
    ensures forall k :: 0 <= k < |t| && t[k].doc.id != d.id ==> r[k] == t[k]
  {
    var i := FirstIdx(Keys(t, EntryId), d.id);
    if i < |t| then t[i := t[i].(b := s)] else t + [Entry(d, 0.0, s)]
  }

  function MergeVector(docs: seq<DocChunk>, scores: seq<real>): seq<Entry>
    requires |docs| == |scores|
  {
    if |docs| == 0 then []
    else PutVector(MergeVector(docs[..|docs| - 1], scores[..|docs| - 1]), docs[|docs| - 1], scores[|docs| - 1])
  }

  function MergeBm25(t: seq<Entry>, docs: seq<DocChunk>, scores: seq<real>): seq<Entry>
    requires |docs| == |scores|
  {
    if |docs| == 0 then t
    else PutBm25(MergeBm25(t, docs[..|docs| - 1], scores[..|docs| - 1]), docs[|docs| - 1], scores[|docs| - 1])
  }

  /** The `merged` dict after both loops, as its list of values in key order. */
  function Merge(vdocs: seq<DocChunk>, vs: seq<real>, bdocs: seq<DocChunk>, bs: seq<real>): seq<Entry>
    requires |vdocs| == |vs| && |bdocs| == |bs|
  {
    MergeBm25(MergeVector(vdocs, vs), bdocs, bs)
  }

  // ---------------------------------------------------------------------
  // Reference definition of the merge, id by id.

  /** The distinct ids of both lists, vector ids first, each at its first
      appearance: the key order of `merged`. */
  function MergedIds(vdocs: seq<DocChunk>, bdocs: seq<DocChunk>): seq<string> {
    Dedup(Ids(vdocs) + Ids(bdocs))
  }

  /** What `merged[id]` holds: the chunk of the last vector hit for `id` (or,
      for a BM25-only id, of its first BM25 hit), the normalised vector score of
      its last vector hit or 0.0, and the normalised BM25 score of its last
      BM25 hit or 0.0. */
  function Expected(vdocs: seq<DocChunk>, vs: seq<real>, bdocs: seq<DocChunk>, bs: seq<real>, id: string): (e: Entry)
    requires |vdocs| == |vs| && |bdocs| == |bs|
    requires id in Ids(vdocs) || id in Ids(bdocs)
    ensures e.doc.id == id
    ensures e.v == 0.0 || e.v in vs
    ensures e.b == 0.0 || e.b in bs
  {
    var vi := Ids(vdocs);
    var bi := Ids(bdocs);
    var doc := if id in vi then vdocs[LastIdx(vi, id)] else bdocs[FirstIdx(bi, id)];
    var v := if id in vi then vs[LastIdx(vi, id)] else 0.0;
    var b := if id in bi then bs[LastIdx(bi, id)] else 0.0;
    Entry(doc, v, b)
  }

  function Spec(vdocs: seq<DocChunk>, vs: seq<real>, bdocs: seq<DocChunk>, bs: seq<real>): (r: seq<Entry>)
    requires |vdocs| == |vs| && |bdocs| == |bs|
    ensures |r| == |MergedIds(vdocs, bdocs)|
    ensures Keys(r, EntryId) == MergedIds(vdocs, bdocs)
  {
    var ids := MergedIds(vdocs, bdocs);
    DedupCorrect(Ids(vdocs) + Ids(bdocs));
    assert forall k :: 0 <= k < |ids| ==> ids[k] in Ids(vdocs) + Ids(bdocs);
    seq(|ids|, k requires 0 <= k < |ids| => Expected(vdocs, vs, bdocs, bs, ids[k]))
  }

  lemma IdsSnoc(docs: seq<DocChunk>)
    requires |docs| > 0
    ensures Ids(docs) == Ids(docs[..|docs| - 1]) + [docs[|docs| - 1].id]
  {
  }

  lemma LastIdxSnoc(s: seq<string>, x: string, k: string)
    requires k in s + [x]
    ensures LastIdx(s + [x], k) == if k == x then |s| else LastIdx(s, k)
  {
    assert (s + [x])[..|s|] == s;
  }

  lemma FirstIdxSnoc(s: seq<string>, x: string, k: string)
    requires k in s
    ensures FirstIdx(s + [x], k) == FirstIdx(s, k)
  {
    assert (s + [x])[..|s|] == s;
    FirstIdxPrefix(s + [x], |s|, k);
  }

  lemma ExpectedVectorOther(vdocs: seq<DocChunk>, vs: seq<real>, id: string)
    requires |vdocs| == |vs| > 0
    requires id in Ids(vdocs[..|vdocs| - 1]) && id != vdocs[|vdocs| - 1].id
    ensures Expected(vdocs, vs, [], [], id) == Expected(vdocs[..|vdocs| - 1], vs[..|vdocs| - 1], [], [], id)
  {
    var n := |vdocs| - 1;
    IdsSnoc(vdocs);
    LastIdxSnoc(Ids(vdocs[..n]), vdocs[n].id, id);
  }

  lemma ExpectedVectorLast(vdocs: seq<DocChunk>, vs: seq<real>)
    requires |vdocs| == |vs| > 0
    ensures Expected(vdocs, vs, [], [], vdocs[|vdocs| - 1].id) == Entry(vdocs[|vdocs| - 1], vs[|vdocs| - 1], 0.0)
  {
    var n := |vdocs| - 1;
    IdsSnoc(vdocs);
    LastIdxSnoc(Ids(vdocs[..n]), vdocs[n].id, vdocs[n].id);
  }

  /** Ids of the vector prefix, and how appending one hit changes them. */
  lemma VectorIds(vdocs: seq<DocChunk>)
    requires |vdocs| > 0
    ensures var n := |vdocs| - 1;
      MergedIds(vdocs[..n], []) == Dedup(Ids(vdocs[..n])) &&
      MergedIds(vdocs, []) == Dedup(Ids(vdocs[..n]) + [vdocs[n].id])
  {
    var n := |vdocs| - 1;
    assert Ids([]) == [];
    assert Ids(vdocs[..n]) + Ids([]) == Ids(vdocs[..n]);
    IdsSnoc(vdocs);
    assert Ids(vdocs) + Ids([]) == Ids(vdocs[..n]) + [vdocs[n].id];
  }

  /** How the merged ids grow with one more vector hit. */
  lemma VectorIdsStep(vdocs: seq<DocChunk>)
    requires |vdocs| > 0
    ensures var n := |vdocs| - 1;
      var ids', ids := MergedIds(vdocs[..n], []), MergedIds(vdocs, []);
      && (vdocs[n].id in Ids(vdocs[..n]) ==> ids == ids' && vdocs[n].id in ids')
      && (vdocs[n].id !in Ids(vdocs[..n]) ==> ids == ids' + [vdocs[n].id] && vdocs[n].id !in ids')
      && (forall k :: 0 <= k < |ids'| ==> ids'[k] in Ids(vdocs[..n]))
      && (forall i, j :: 0 <= i < j < |ids'| ==> ids'[i] != ids'[j])
  {
    var n := |vdocs| - 1;
    VectorIds(vdocs);
    DedupSnocFacts(Ids(vdocs[..n]), vdocs[n].id);
  }

  /** One entry after a vector hit: the hit's own entry is replaced, every
      other entry is untouched. */
  lemma VectorStepAt(vdocs: seq<DocChunk>, vs: seq<real>, t: seq<Entry>, k: nat)
    requires |vdocs| == |vs| > 0
    requires var n := |vdocs| - 1; t == Spec(vdocs[..n], vs[..n], [], [])
    requires k < |MergedIds(vdocs, [])|
    ensures var n := |vdocs| - 1; var r := PutVector(t, vdocs[n], vs[n]);
      |r| == |MergedIds(vdocs, [])| && r[k] == Spec(vdocs, vs, [], [])[k]
  {
    var n := |vdocs| - 1;
    var d := vdocs[n];
    var ids' := MergedIds(vdocs[..n], []);
    var ids := MergedIds(vdocs, []);
    var r := PutVector(t, d, vs[n]);
    VectorIdsStep(vdocs);
    assert Keys(t, EntryId) == ids';
    assert Keys(r, EntryId) == ids;
    var spec := Spec(vdocs, vs, [], []);
    if k < |t| && ids'[k] != d.id {
      assert ids[k] == ids'[k];
      ExpectedVectorOther(vdocs, vs, ids'[k]);
      assert r[k] == t[k];
    } else {
      assert ids[k] == d.id;
      assert k == FirstIdx(ids', d.id);
      ExpectedVectorLast(vdocs, vs);
      assert r[k] == Entry(d, vs[n], 0.0);
    }
    assert r[k] == spec[k];
  }

  /** The vector loop builds exactly the reference entries of its prefix. */
  lemma {:induction false} MergeVectorSpec(vdocs: seq<DocChunk>, vs: seq<real>)
    requires |vdocs| == |vs|
    ensures MergeVector(vdocs, vs) == Spec(vdocs, vs, [], [])
  {
    if |vdocs| == 0 {
      assert Ids([]) == [];
    } else {
      var n := |vdocs| - 1;
      MergeVectorSpec(vdocs[..n], vs[..n]);
      var t := MergeVector(vdocs[..n], vs[..n]);
      var r := MergeVector(vdocs, vs);
      var spec := Spec(vdocs, vs, [], []);
      assert r == PutVector(t, vdocs[n], vs[n]);
      forall k | 0 <= k < |spec| ensures |r| == |spec| && r[k] == spec[k] {
        VectorStepAt(vdocs, vs, t, k);
      }
      assert |r| == |spec| by {
        assert |Keys(r, EntryId)| == |Keys(t, EntryId)| + (if vdocs[n].id in Keys(t, EntryId) then 0 else 1);
      }
    }
  }

  lemma ExpectedBm25Other(vdocs: seq<DocChunk>, vs: seq<real>, bdocs: seq<DocChunk>, bs: seq<real>, id: string)
    requires |vdocs| == |vs| && |bdocs| == |bs| > 0
    requires id in Ids(vdocs) || id in Ids(bdocs[..|bdocs| - 1])
    requires id != bdocs[|bdocs| - 1].id
    ensures Expected(vdocs, vs, bdocs, bs, id) == Expected(vdocs, vs, bdocs[..|bdocs| - 1], bs[..|bdocs| - 1], id)
  {
    var n := |bdocs| - 1;
    IdsSnoc(bdocs);
    if id in Ids(bdocs[..n]) {
      LastIdxSnoc(Ids(bdocs[..n]), bdocs[n].id, id);
      FirstIdxSnoc(Ids(bdocs[..n]), bdocs[n].id, id);
    }
  }

  lemma ExpectedBm25Known(vdocs: seq<DocChunk>, vs: seq<real>, bdocs: seq<DocChunk>, bs: seq<real>)
    requires |vdocs| == |vs| && |bdocs| == |bs| > 0
    requires bdocs[|bdocs| - 1].id in Ids(vdocs) + Ids(bdocs[..|bdocs| - 1])
    ensures var n := |bdocs| - 1;
      Expected(vdocs, vs, bdocs, bs, bdocs[n].id) ==
      Expected(vdocs, vs, bdocs[..n], bs[..n], bdocs[n].id).(b := bs[n])
  {
    var n := |bdocs| - 1;
    var id := bdocs[n].id;
    IdsSnoc(bdocs);
    LastIdxSnoc(Ids(bdocs[..n]), id, id);
    if id in Ids(bdocs[..n]) {
      FirstIdxSnoc(Ids(bdocs[..n]), id, id);
    }
  }

  lemma ExpectedBm25New(vdocs: seq<DocChunk>, vs: seq<real>, bdocs: seq<DocChunk>, bs: seq<real>)
    requires |vdocs| == |vs| && |bdocs| == |bs| > 0
    requires bdocs[|bdocs| - 1].id !in Ids(vdocs) + Ids(bdocs[..|bdocs| - 1])
    ensures var n := |bdocs| - 1;
      Expected(vdocs, vs, bdocs, bs, bdocs[n].id) == Entry(bdocs[n], 0.0, bs[n])
  {
    var n := |bdocs| - 1;
    var id := bdocs[n].id;
    IdsSnoc(bdocs);
    LastIdxSnoc(Ids(bdocs[..n]), id, id);
    assert FirstIdx(Ids(bdocs), id) == n;
  }

  /** How the merged ids grow with one more BM25 hit. */
  lemma Bm25IdsStep(vdocs: seq<DocChunk>, bdocs: seq<DocChunk>)
    requires |bdocs| > 0
    ensures var n := |bdocs| - 1;
      var all' := Ids(vdocs) + Ids(bdocs[..n]);
      var ids', ids := MergedIds(vdocs, bdocs[..n]), MergedIds(vdocs, bdocs);
      && (bdocs[n].id in all' ==> ids == ids' && bdocs[n].id in ids')
      && (bdocs[n].id !in all' ==> ids == ids' + [bdocs[n].id] && bdocs[n].id !in ids')
      && (forall k :: 0 <= k < |ids'| ==> ids'[k] in all')
      && (forall i, j :: 0 <= i < j < |ids'| ==> ids'[i] != ids'[j])
  {
    var n := |bdocs| - 1;
    var all' := Ids(vdocs) + Ids(bdocs[..n]);
    IdsSnoc(bdocs);
    assert Ids(vdocs) + Ids(bdocs) == all' + [bdocs[n].id];
    DedupSnoc(all', bdocs[n].id);
    DedupCorrect(all');
  }

  /** The state before BM25 hit `n` is the reference for the shorter list,
      and `k` is a position of the merged ids after it. */
  ghost predicate Bm25Before(vdocs: seq<DocChunk>, vs: seq<real>, bdocs: seq<DocChunk>, bs: seq<real>, t: seq<Entry>, k: nat) {
    && |vdocs| == |vs| && |bdocs| == |bs| > 0
    && t == Spec(vdocs, vs, bdocs[..|bdocs| - 1], bs[..|bdocs| - 1])
    && k < |MergedIds(vdocs, bdocs)|
  }

  /** An entry for another id is untouched by the hit. */
  lemma Bm25StepOther(vdocs: seq<DocChunk>, vs: seq<real>, bdocs: seq<DocChunk>, bs: seq<real>, t: seq<Entry>, k: nat)
    requires Bm25Before(vdocs, vs, bdocs, bs, t, k)
    requires k < |t| && t[k].doc.id != bdocs[|bdocs| - 1].id
    ensures var n := |bdocs| - 1; var r := PutBm25(t, bdocs[n], bs[n]);
      |r| == |MergedIds(vdocs, bdocs)| && r[k] == Spec(vdocs, vs, bdocs, bs)[k]
  {
    var n := |bdocs| - 1;
    var d := bdocs[n];
    var all' := Ids(vdocs) + Ids(bdocs[..n]);
    var ids' := MergedIds(vdocs, bdocs[..n]);
    var ids := MergedIds(vdocs, bdocs);
    var r := PutBm25(t, d, bs[n]);
    Bm25IdsStep(vdocs, bdocs);
    assert Keys(t, EntryId) == ids';
    assert Keys(r, EntryId) == ids;
    assert ids[k] == ids'[k];
    assert ids'[k] in all';
    ExpectedBm25Other(vdocs, vs, bdocs, bs, ids'[k]);
    assert r[k] == t[k];
  }

  /** The hit's id was already merged: its entry gets the BM25 score. */
  lemma Bm25StepKnown(vdocs: seq<DocChunk>, vs: seq<real>, bdocs: seq<DocChunk>, bs: seq<real>, t: seq<Entry>, k: nat)
    requires Bm25Before(vdocs, vs, bdocs, bs, t, k)
    requires !(k < |t| && t[k].doc.id != bdocs[|bdocs| - 1].id)
    requires bdocs[|bdocs| - 1].id in Ids(vdocs) + Ids(bdocs[..|bdocs| - 1])
    ensures var n := |bdocs| - 1; var r := PutBm25(t, bdocs[n], bs[n]);
      |r| == |MergedIds(vdocs, bdocs)| && r[k] == Spec(vdocs, vs, bdocs, bs)[k]
  {
    var n := |bdocs| - 1;
    var d := bdocs[n];
    var ids' := MergedIds(vdocs, bdocs[..n]);
    var ids := MergedIds(vdocs, bdocs);
    var r := PutBm25(t, d, bs[n]);
    assert |r| == |ids| && ids[k] == d.id && k == FirstIdx(Keys(t, EntryId), d.id) && k < |t| by {
      Bm25IdsStep(vdocs, bdocs);
      assert Keys(t, EntryId) == ids';
      assert Keys(r, EntryId) == ids;
    }
    assert r[k] == t[k].(b := bs[n]);
    assert Spec(vdocs, vs, bdocs, bs)[k] == t[k].(b := bs[n]) by {
      ExpectedBm25Known(vdocs, vs, bdocs, bs);
    }
  }

  /** The hit's id is new: it gets a fresh entry with vector score 0. */
  lemma Bm25StepNew(vdocs: seq<DocChunk>, vs: seq<real>, bdocs: seq<DocChunk>, bs: seq<real>, t: seq<Entry>, k: nat)
    requires Bm25Before(vdocs, vs, bdocs, bs, t, k)
    requires !(k < |t| && t[k].doc.id != bdocs[|bdocs| - 1].id)
    requires bdocs[|bdocs| - 1].id !in Ids(vdocs) + Ids(bdocs[..|bdocs| - 1])
    ensures var n := |bdocs| - 1; var r := PutBm25(t, bdocs[n], bs[n]);
      |r| == |MergedIds(vdocs, bdocs)| && r[k] == Spec(vdocs, vs, bdocs, bs)[k]
  {
    var n := |bdocs| - 1;
    var d := bdocs[n];
    var ids' := MergedIds(vdocs, bdocs[..n]);
    var ids := MergedIds(vdocs, bdocs);
    var r := PutBm25(t, d, bs[n]);
    Bm25IdsStep(vdocs, bdocs);
    assert Keys(t, EntryId) == ids';
    assert Keys(r, EntryId) == ids;
    assert ids[k] == d.id;
    assert k == FirstIdx(ids', d.id);
    ExpectedBm25New(vdocs, vs, bdocs, bs);
    assert r[k] == Entry(d, 0.0, bs[n]);
  }

  /** One entry after a BM25 hit: the hit's own entry gets its `b`, or is
      created, and every other entry is untouched. */
  lemma Bm25StepAt(vdocs: seq<DocChunk>, vs: seq<real>, bdocs: seq<DocChunk>, bs: seq<real>, t: seq<Entry>, k: nat)
    requires Bm25Before(vdocs, vs, bdocs, bs, t, k)
    ensures var n := |bdocs| - 1; var r := PutBm25(t, bdocs[n], bs[n]);
      |r| == |MergedIds(vdocs, bdocs)| && r[k] == Spec(vdocs, vs, bdocs, bs)[k]
  {
    var n := |bdocs| - 1;
    if k < |t| && t[k].doc.id != bdocs[n].id {
      Bm25StepOther(vdocs, vs, bdocs, bs, t, k);
    } else if bdocs[n].id in Ids(vdocs) + Ids(bdocs[..n]) {
      Bm25StepKnown(vdocs, vs, bdocs, bs, t, k);
    } else {
      Bm25StepNew(vdocs, vs, bdocs, bs, t, k);
    }
  }

  /** The BM25 loop, run after the vector loop, builds exactly the reference
      entries of both lists. */
  lemma {:induction false} MergeBm25Spec(vdocs: seq<DocChunk>, vs: seq<real>, bdocs: seq<DocChunk>, bs: seq<real>)
    requires |vdocs| == |vs| && |bdocs| == |bs|
    ensures MergeBm25(MergeVector(vdocs, vs), bdocs, bs) == Spec(vdocs, vs, bdocs, bs)
  {
    if |bdocs| == 0 {
      MergeVectorSpec(vdocs, vs);
      assert bdocs == [];
    } else {
      var n := |bdocs| - 1;
      MergeBm25Spec(vdocs, vs, bdocs[..n], bs[..n]);
      var t := MergeBm25(MergeVector(vdocs, vs), bdocs[..n], bs[..n]);
      var r := MergeBm25(MergeVector(vdocs, vs), bdocs, bs);
      var spec := Spec(vdocs, vs, bdocs, bs);
      assert r == PutBm25(t, bdocs[n], bs[n]);
      forall k | 0 <= k < |spec| ensures |r| == |spec| && r[k] == spec[k] {
        Bm25StepAt(vdocs, vs, bdocs, bs, t, k);
      }
      assert |r| == |spec| by {
        assert |Keys(r, EntryId)| == |Keys(t, EntryId)| + (if bdocs[n].id in Keys(t, EntryId) then 0 else 1);
      }
    }
  }

  // ---------------------------------------------------------------------
  // Scoring, sorting and truncation.

  /** The copy of a merged chunk carrying its blended score. */
  function Combined(alpha: real, e: Entry): DocChunk {
    Rescored(e.doc, Blend(alpha, e.v, e.b), HYBRID)
  }

  /** `alpha * v + (1 - alpha) * b`. */
  function Blend(alpha: real, v: real, b: real): real {
    alpha * v + (1.0 - alpha) * b
  }

  function Scores(docs: seq<DocChunk>): seq<real> { Keys(docs, Score) }

  /** `scored`, before sorting: one blended copy per merged id. */
  function Blended(alpha: real, vdocs: seq<DocChunk>, bdocs: seq<DocChunk>): seq<DocChunk> {
    BlendAll(alpha, Merge(vdocs, MinMaxNorm(Scores(vdocs)), bdocs, MinMaxNorm(Scores(bdocs))))
  }

  /** The loop over `merged.values()`. */
  function BlendAll(alpha: real, entries: seq<Entry>): (r: seq<DocChunk>)
    ensures |r| == |entries|
    ensures forall k :: 0 <= k < |r| ==> r[k] == Combined(alpha, entries[k])
  {
    seq(|entries|, k requires 0 <= k < |entries| => Combined(alpha, entries[k]))
  }

  /** Lines 27-49 of `HybridRetriever.retrieve`, on the two candidate lists. */
  function Fuse(alpha: real, vdocs: seq<DocChunk>, bdocs: seq<DocChunk>, topK: int): seq<DocChunk> {
    Take(SortDesc(Blended(alpha, vdocs, bdocs), Score), topK)
  }

  /** `HybridRetriever.retrieve`: both backends are asked for
      `top_k * pool_mult` candidates, vector first; a backend failure is
      passed on unchanged. */
  function Retrieve(vsearch: Search, bsearch: Search, alpha: real, query: string, topK: int, poolMult: int): (r: Result<seq<DocChunk>>)
    ensures vsearch(query, topK * poolMult).Err? ==> r == Err(vsearch(query, topK * poolMult).error)
    ensures vsearch(query, topK * poolMult).Ok? && bsearch(query, topK * poolMult).Err? ==>
              r == Err(bsearch(query, topK * poolMult).error)
    ensures r.Ok? <==> vsearch(query, topK * poolMult).Ok? && bsearch(query, topK * poolMult).Ok?
  {
    var v :- vsearch(query, topK * poolMult);
    var b :- bsearch(query, topK * poolMult);
    Ok(Fuse(alpha, v, b, topK))
  }

  /** `hybrid_retrieve`, with the source's defaults. */
  function HybridRetrieve(query: string, vsearch: Search, bsearch: Search, topK: int := DEFAULT_TOP_K,
                          alpha: real := DEFAULT_ALPHA, poolMult: int := DEFAULT_POOL_MULT): (r: Result<seq<DocChunk>>)
    ensures r.Ok? <==> vsearch(query, topK * poolMult).Ok? && bsearch(query, topK * poolMult).Ok?
    ensures r.Ok? ==> DistinctKeys(r.value, Id) && SortedDesc(r.value, Score)
    ensures r.Ok? ==> forall d :: d in r.value ==> d.tag == HYBRID
    ensures r.Ok? && topK >= 0 ==> |r.value| <= topK
    ensures r.Ok? && 0.0 <= alpha <= 1.0 ==> forall d :: d in r.value ==> 0.0 <= d.score <= 1.0
  {
    var r := Retrieve(vsearch, bsearch, alpha, query, topK, poolMult);
    assert r.Ok? ==> (
      && (forall d :: d in r.value ==> d.tag == HYBRID) && DistinctKeys(r.value, Id) && SortedDesc(r.value, Score)
      && (topK >= 0 ==> |r.value| <= topK)
      && (0.0 <= alpha <= 1.0 ==> forall d :: d in r.value ==> 0.0 <= d.score <= 1.0)) by {
      if r.Ok? {
        var v, b := vsearch(query, topK * poolMult).value, bsearch(query, topK * poolMult).value;
        FuseCorrect(alpha, v, b, topK);
        forall d | d in r.value ensures d.tag == HYBRID {
          var k :| 0 <= k < |r.value| && r.value[k] == d;
        }
        if 0.0 <= alpha <= 1.0 {
          FuseScoreBounds(alpha, v, b, topK);
        }
      }
    }
    r
  }

  /** The reference for one output chunk: the merge entry of `id` under the
      normalised scores, blended with weight `alpha`. */
  function BlendOf(alpha: real, vdocs: seq<DocChunk>, bdocs: seq<DocChunk>, id: string): (d: DocChunk)
    requires id in MergedIds(vdocs, bdocs)
    ensures d.id == id
  {
    DedupCorrect(Ids(vdocs) + Ids(bdocs));
    Combined(alpha, Expected(vdocs, MinMaxNorm(Scores(vdocs)), bdocs, MinMaxNorm(Scores(bdocs)), id))
  }

  lemma BlendedSpec(alpha: real, vdocs: seq<DocChunk>, bdocs: seq<DocChunk>)
    ensures var ids := MergedIds(vdocs, bdocs);
      var out := Blended(alpha, vdocs, bdocs);
      |out| == |ids| && forall k :: 0 <= k < |out| ==> out[k] == BlendOf(alpha, vdocs, bdocs, ids[k])
  {
    var vs, bs := MinMaxNorm(Scores(vdocs)), MinMaxNorm(Scores(bdocs));
    MergeBm25Spec(vdocs, vs, bdocs, bs);
  }

  /** The blended list carries the merged ids, in order, each once. */
  lemma BlendedIds(alpha: real, vdocs: seq<DocChunk>, bdocs: seq<DocChunk>)
    ensures Ids(Blended(alpha, vdocs, bdocs)) == MergedIds(vdocs, bdocs)
    ensures DistinctKeys(Blended(alpha, vdocs, bdocs), Id)
  {
    var ids := MergedIds(vdocs, bdocs);
    var bl := Blended(alpha, vdocs, bdocs);
    BlendedSpec(alpha, vdocs, bdocs);
    DedupCorrect(Ids(vdocs) + Ids(bdocs));
    assert forall k :: 0 <= k < |bl| ==> bl[k].id == ids[k];
  }

  /** Every output chunk is the blend of the reference merge entry for its id. */
  lemma FuseEntries(alpha: real, vdocs: seq<DocChunk>, bdocs: seq<DocChunk>, topK: int)
    ensures var out := Fuse(alpha, vdocs, bdocs, topK);
      forall k :: 0 <= k < |out| ==>
        out[k].id in MergedIds(vdocs, bdocs) && out[k] == BlendOf(alpha, vdocs, bdocs, out[k].id)
  {
    var ids := MergedIds(vdocs, bdocs);
    var bl := Blended(alpha, vdocs, bdocs);
    var out := Fuse(alpha, vdocs, bdocs, topK);
    BlendedSpec(alpha, vdocs, bdocs);
    BlendedIds(alpha, vdocs, bdocs);
    TopKOfDistinct(bl, Score, Id, topK);
    forall k | 0 <= k < |out|
      ensures out[k].id in ids && out[k] == BlendOf(alpha, vdocs, bdocs, out[k].id)
    {
      var m :| 0 <= m < |bl| && bl[m] == out[k];
      assert bl[m].id == ids[m];
    }
  }

  /** Everything `retrieve` promises about its output: distinct ids drawn
      from the two candidate lists, each carrying the blended score of the
      reference merge and tag "hybrid" with its other fields unchanged,
      sorted descending, `min(top_k, #ids)` long (every id kept once top_k
      covers them all), and ties left in merge order (vector hits first). */
  lemma FuseCorrect(alpha: real, vdocs: seq<DocChunk>, bdocs: seq<DocChunk>, topK: int)
    ensures var ids := MergedIds(vdocs, bdocs);
      var out := Fuse(alpha, vdocs, bdocs, topK);
      && DistinctKeys(out, Id)
      && SortedDesc(out, Score)
      && (topK >= 0 ==> |out| == Min(topK, |ids|))
      && (forall k :: 0 <= k < |out| ==>
            out[k].id in ids && out[k] == BlendOf(alpha, vdocs, bdocs, out[k].id))
      && (topK >= |ids| ==> forall id :: id in ids ==> id in Ids(out))
      && (forall c :: Ties(SortDesc(Blended(alpha, vdocs, bdocs), Score), Score, c) ==
                      Ties(Blended(alpha, vdocs, bdocs), Score, c))
  {
    var bl := Blended(alpha, vdocs, bdocs);
    var out := Fuse(alpha, vdocs, bdocs, topK);
    BlendedIds(alpha, vdocs, bdocs);
    TopKOfDistinct(bl, Score, Id, topK);
    FuseEntries(alpha, vdocs, bdocs, topK);
    if topK >= |MergedIds(vdocs, bdocs)| {
      IdsCover(bl, out);
    }
    SortDescCorrect(bl, Score);
  }

  /** With 0 <= alpha <= 1 every blended score lies in [0, 1]. */
  lemma FuseScoreBounds(alpha: real, vdocs: seq<DocChunk>, bdocs: seq<DocChunk>, topK: int)
    requires 0.0 <= alpha <= 1.0
    ensures forall d :: d in Fuse(alpha, vdocs, bdocs, topK) ==> 0.0 <= d.score <= 1.0
  {
    var out := Fuse(alpha, vdocs, bdocs, topK);
    FuseEntries(alpha, vdocs, bdocs, topK);
    forall d | d in out ensures 0.0 <= d.score <= 1.0 {
      var k :| 0 <= k < |out| && out[k] == d;
      BlendOfBounds(alpha, vdocs, bdocs, d.id);
    }
  }

  lemma BlendOfBounds(alpha: real, vdocs: seq<DocChunk>, bdocs: seq<DocChunk>, id: string)
    requires 0.0 <= alpha <= 1.0 && id in MergedIds(vdocs, bdocs)
    ensures 0.0 <= BlendOf(alpha, vdocs, bdocs, id).score <= 1.0
  {
    assert id in Ids(vdocs) + Ids(bdocs) by { DedupCorrect(Ids(vdocs) + Ids(bdocs)); }
    var vs, bs := MinMaxNorm(Scores(vdocs)), MinMaxNorm(Scores(bdocs));
    var e := Expected(vdocs, vs, bdocs, bs, id);
    assert BlendOf(alpha, vdocs, bdocs, id) == Combined(alpha, e);
    assert 0.0 <= e.v <= 1.0 && 0.0 <= e.b <= 1.0;
    BlendBounds(alpha, e.v, e.b);
    assert Combined(alpha, e).score == Blend(alpha, e.v, e.b);
  }

  lemma BlendBounds(alpha: real, v: real, b: real)
    requires 0.0 <= alpha <= 1.0 && 0.0 <= v <= 1.0 && 0.0 <= b <= 1.0
    ensures 0.0 <= Blend(alpha, v, b) <= 1.0
  {
    assert 0.0 <= alpha * v <= alpha;
    assert 0.0 <= (1.0 - alpha) * b <= 1.0 - alpha;
  }

  /** The result depends on the backends only through their answers to
      `(query, top_k * pool_mult)`. */
  lemma RetrieveAsksPool(vs1: Search, bs1: Search, vs2: Search, bs2: Search, alpha: real, query: string, topK: int, poolMult: int)
    requires vs1(query, topK * poolMult) == vs2(query, topK * poolMult)
    requires vs1(query, topK * poolMult).Ok? ==> bs1(query, topK * poolMult) == bs2(query, topK * poolMult)
    ensures Retrieve(vs1, bs1, alpha, query, topK, poolMult) == Retrieve(vs2, bs2, alpha, query, topK, poolMult)
  {
  }

  // ---------------------------------------------------------------------
  // The repository's own merge test: vector hits 1 (0.9) and 2 (0.2), BM25
  // hits 2 (10.0) and 3 (8.0), alpha 0.5, top_k 3.

  function ExampleVector(): seq<DocChunk> {
    [DocChunk("1", "alpha beta", "a.pdf", score := 0.9), DocChunk("2", "gamma", "b.pdf", score := 0.2)]
  }

  function ExampleBm25(): seq<DocChunk> {
    [DocChunk("2", "gamma", "b.pdf", score := 10.0), DocChunk("3", "delta", "c.pdf", score := 8.0)]
  }

  lemma ExampleNorms()
    ensures MinMaxNorm(Scores(ExampleVector())) == [1.0, 0.0]
    ensures MinMaxNorm(Scores(ExampleBm25())) == [1.0, 0.0]
  {
    assert Scores(ExampleVector()) == [0.9, 0.2];
    assert Scores(ExampleBm25()) == [10.0, 8.0];
  }

  lemma ExampleVectorLoop()
    ensures MergeVector(ExampleVector(), [1.0, 0.0]) == [Entry(ExampleVector()[0], 1.0, 0.0), Entry(ExampleVector()[1], 0.0, 0.0)]
  {
    var v, vs := ExampleVector(), [1.0, 0.0];
    assert v[..1][..0] == [] && vs[..1][..0] == [];
    assert MergeVector(v[..1][..0], vs[..1][..0]) == [];
    var t1 := MergeVector(v[..1], vs[..1]);
    assert t1 == PutVector([], v[0], 1.0);
    assert Keys(t1, EntryId) == ["1"];
    assert MergeVector(v, vs) == PutVector(t1, v[1], 0.0);
  }

  /** Id 2 is found by both retrievers and keeps its vector chunk. */
  lemma ExampleMerge()
    ensures Merge(ExampleVector(), [1.0, 0.0], ExampleBm25(), [1.0, 0.0]) ==
      [Entry(ExampleVector()[0], 1.0, 0.0), Entry(ExampleVector()[1], 0.0, 1.0), Entry(ExampleBm25()[1], 0.0, 0.0)]
  {
    var v, b, vs, bs := ExampleVector(), ExampleBm25(), [1.0, 0.0], [1.0, 0.0];
    ExampleVectorLoop();
    var t2 := MergeVector(v, vs);
    assert Keys(t2, EntryId) == ["1", "2"];
    assert b[..1][..0] == [] && bs[..1][..0] == [];
    assert MergeBm25(t2, b[..1][..0], bs[..1][..0]) == t2;
    var t3 := MergeBm25(t2, b[..1], bs[..1]);
    assert t3 == PutBm25(t2, b[0], 1.0);
    assert FirstIdx(Keys(t2, EntryId), "2") == 1;
    assert Keys(t3, EntryId) == ["1", "2"];
    assert MergeBm25(t2, b, bs) == PutBm25(t3, b[1], 0.0);
  }

  lemma ExampleBlendAll()
    ensures BlendAll(0.5, [Entry(ExampleVector()[0], 1.0, 0.0), Entry(ExampleVector()[1], 0.0, 1.0), Entry(ExampleBm25()[1], 0.0, 0.0)])
            == ExampleOutput()
  {
  }

  lemma ExampleBlended()
    ensures Blended(0.5, ExampleVector(), ExampleBm25()) == ExampleOutput()
  {
    ExampleNorms();
    ExampleMerge();
    ExampleBlendAll();
  }

  function ExampleOutput(): seq<DocChunk> {
    [DocChunk("1", "alpha beta", "a.pdf", score := 0.5, tag := HYBRID),
     DocChunk("2", "gamma", "b.pdf", score := 0.5, tag := HYBRID),
     DocChunk("3", "delta", "c.pdf", score := 0.0, tag := HYBRID)]
  }

  /** The three ids come back, 1 and 2 tied at 0.5 in merge order, 3 at 0. */
  lemma MergeExample()
    ensures Fuse(0.5, ExampleVector(), ExampleBm25(), 3) == ExampleOutput()
    ensures Ids(ExampleOutput()) == ["1", "2", "3"]
  {
    var out := ExampleOutput();
    assert Ids(out) == ["1", "2", "3"];
    assert SortedDesc(out, Score);
    ExampleBlended();
    SortedIsFixed(out, Score);
  }
}
