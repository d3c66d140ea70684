/** The lexical store: its tokenizer, the chunk records and token lists it
    builds, and its top-k selection over the scorer's scores. */
module Bm25Store {
  import opened Common
  import opened Text
  import opened Seqs
  import opened Sorting
  import opened Schemas
  import opened Chunkers
  import opened Corpus

  /** `[a-z0-9]`. */
  predicate IsWordChar(c: char) {
    'a' <= c <= 'z' || '0' <= c <= '9'
  }

  predicate IsWord(w: string) {
    |w| > 0 && forall k :: 0 <= k < |w| ==> IsWordChar(w[k])
  }

  /** Length of the run of word characters `s` starts with. */
  function RunLen(s: string): (n: nat)
    ensures n <= |s|
    ensures forall k :: 0 <= k < n ==> IsWordChar(s[k])
    ensures n < |s| ==> !IsWordChar(s[n])
  {
    if s == [] || !IsWordChar(s[0]) then 0 else 1 + RunLen(s[1..])
  }

  /** `re.findall(r"[a-z0-9]+", s)`: the maximal runs of word characters, in order. */
  function Runs(s: string): (r: seq<string>)
    ensures forall k :: 0 <= k < |r| ==> IsWord(r[k])
    decreases |s|
  {
    if s == [] then []
    else if !IsWordChar(s[0]) then Runs(s[1..])
    else
      var n := RunLen(s);
      [s[..n]] + Runs(s[n..])
  }

  /** `_tokenize(text)`, with `None` read as "". */
  function Tokenize(text: Option<string>): seq<string> {
    Runs(Lower(text.GetOr("")))
  }

  /** Gluing tokens with single blanks and tokenizing again gives the tokens
      back: no token is split or merged. */
  lemma {:induction false} RunsOfJoin(ts: seq<string>)
    requires forall k :: 0 <= k < |ts| ==> IsWord(ts[k])
    ensures Runs(Join(ts, " ")) == ts
  {
    if |ts| == 1 {
      RunsOfWord(ts[0], "");
      assert ts[0] + "" == ts[0];
    } else if |ts| > 1 {
      var rest := Join(ts[1..], " ");
      RunsOfJoin(ts[1..]);
      AppendAssoc(ts[0], " ", rest);
      RunsOfWord(ts[0], " " + rest);
      assert (" " + rest)[1..] == rest;
      assert ts == [ts[0]] + ts[1..];
    }
  }

  /** A word followed by text that does not continue it is one token. */
  lemma RunsOfWord(w: string, rest: string)
    requires IsWord(w)
    requires rest == [] || !IsWordChar(rest[0])
    ensures Runs(w + rest) == [w] + Runs(rest)
    ensures rest != [] ==> Runs(rest) == Runs(rest[1..])
  {
    var s := w + rest;
    RunLenOfWord(w, rest);
    assert s[..|w|] == w && s[|w|..] == rest;
  }

  lemma {:induction false} RunLenOfWord(w: string, rest: string)
    requires forall k :: 0 <= k < |w| ==> IsWordChar(w[k])
    requires rest == [] || !IsWordChar(rest[0])
    ensures RunLen(w + rest) == |w|
  {
    if w != [] {
      assert (w + rest)[1..] == w[1..] + rest;
      RunLenOfWord(w[1..], rest);
    }
  }

  /** Tokens are case-blind: upper-case letters become lower-case tokens. */
  lemma TokenizeCaseBlind(a: string, b: string)
    requires Lower(a) == Lower(b)
    ensures Tokenize(Some(a)) == Tokenize(Some(b))
  {
  }

  lemma TokenizeNothing()
    ensures Tokenize(None) == [] && Tokenize(Some("")) == []
  {
    assert Lower("") == "";
  }

  /** The built index: chunk records and, parallel to them, their tokens. */
  datatype Bm25Index = Bm25Index(meta: seq<ChunkMeta>, tokens: seq<seq<string>>)

  /** The records for the chunks of one document, numbered from 0. */
  function SourceMeta(source: string, chunks: seq<string>): (r: seq<ChunkMeta>)
    ensures |r| == |chunks|
    ensures forall i :: 0 <= i < |r| ==> r[i] == ChunkMeta(ChunkId(source, i), source, i, chunks[i])
  {
    seq(|chunks|, i requires 0 <= i < |chunks| => ChunkMeta(ChunkId(source, i), source, i, chunks[i]))
  }

  function MetaText(m: ChunkMeta): string { m.text }

  function MetaTokens(m: ChunkMeta): seq<string> { Tokenize(Some(m.text)) }

  /** The records of the documents at `paths`, in order; `load` stands for
      the PDF text extraction. A chunking error stops the build. */
  function BuildMeta(paths: seq<string>, load: string -> string, size: int, overlap: int): Result<seq<ChunkMeta>>
  {
    if paths == [] then Ok([])
    else
      var chunks :- ChunkText(Some(load(paths[0])), size, overlap);
      var rest :- BuildMeta(paths[1..], load, size, overlap);
      Ok(SourceMeta(Basename(paths[0]), chunks) + rest)
  }

  /** Every record is named after its document and its position there: id
      "{source}::chunk_{i}" and chunk index `i`. */
  ghost predicate WellNamed(meta: seq<ChunkMeta>) {
    forall k :: 0 <= k < |meta| ==> meta[k].id == ChunkId(meta[k].source, meta[k].chunkIndex)
  }

  lemma {:induction false} BuildMetaNamed(paths: seq<string>, load: string -> string, size: int, overlap: int)
    ensures var r := BuildMeta(paths, load, size, overlap);
      r.Ok? ==> WellNamed(r.value)
  {
    if paths != [] {
      BuildMetaNamed(paths[1..], load, size, overlap);
    }
  }

  /** Every chunk of every document gets a record: nothing is filtered, so
      the records are the chunk lists laid end to end. */
  lemma {:induction false} BuildMetaKeepsAll(paths: seq<string>, load: string -> string, size: int, overlap: int)
    requires size > 0
    ensures var r := BuildMeta(paths, load, size, overlap);
      r.Ok? && Keys(r.value, MetaText) == AllChunks(paths, load, size, overlap)
  {
    if paths != [] {
      BuildMetaKeepsAll(paths[1..], load, size, overlap);
      var chunks := ChunkText(Some(load(paths[0])), size, overlap).value;
      var rest := BuildMeta(paths[1..], load, size, overlap).value;
      KeysConcat(SourceMeta(Basename(paths[0]), chunks), rest, MetaText);
      assert Keys(SourceMeta(Basename(paths[0]), chunks), MetaText) == chunks;
    }
  }

  /** The chunks of all documents, in order. */
  function AllChunks(paths: seq<string>, load: string -> string, size: int, overlap: int): seq<string>
    requires size > 0
  {
    if paths == [] then []
    else ChunkText(Some(load(paths[0])), size, overlap).value + AllChunks(paths[1..], load, size, overlap)
  }

  /** `build(pdf_dir, chunk_size, overlap)`: no PDFs is an error, and the
      token lists run parallel to the records. */
  function Build(listing: seq<string>, dir: string, load: string -> string, size: int := 800, overlap: int := 200): (r: Result<Bm25Index>)
    ensures GlobPdfs(listing) == [] ==> r == Err(NoPdfsFound(dir))
    ensures r.Ok? ==> (|r.value.tokens| == |r.value.meta| &&
      forall k :: 0 <= k < |r.value.meta| ==> r.value.tokens[k] == Tokenize(Some(r.value.meta[k].text)))
    ensures r.Ok? ==>
      PdfPaths(Dir(dir, listing)).Ok? && BuildMeta(PdfPaths(Dir(dir, listing)).value, load, size, overlap) == Ok(r.value.meta)
  {
    var paths :- PdfPaths(Dir(dir, listing));
    var meta :- BuildMeta(paths, load, size, overlap);
    Ok(Bm25Index(meta, Keys(meta, MetaTokens)))
  }

  /** The records a successful build stores are well named. */
  lemma BuildNamed(listing: seq<string>, dir: string, load: string -> string, size: int, overlap: int)
    ensures var r := Build(listing, dir, load, size, overlap);
      r.Ok? ==> WellNamed(r.value.meta)
  {
    var paths := PdfPaths(Dir(dir, listing));
    if paths.Ok? {
      BuildMetaNamed(paths.value, load, size, overlap);
    }
  }

  /** With a positive window size the build succeeds whenever there are
      PDFs, and its records hold every chunk of every selected document, in
      path order, unfiltered. */
  lemma BuildKeepsAll(listing: seq<string>, dir: string, load: string -> string, size: int, overlap: int)
    requires size > 0
    ensures var r := Build(listing, dir, load, size, overlap);
      GlobPdfs(listing) != [] ==> r.Ok? && Keys(r.value.meta, MetaText) == AllChunks(GlobPdfs(listing), load, size, overlap)
  {
    BuildMetaKeepsAll(GlobPdfs(listing), load, size, overlap);
  }

  /** `scores.__getitem__`, total on all integers. */
  function IndexScore(scores: seq<real>): int -> real {
    i => if 0 <= i < |scores| then scores[i] else 0.0
  }

  /** `sorted(range(len(scores)), key=scores.__getitem__, reverse=True)[:k]`. */
  function TopIdxs(scores: seq<real>, k: int): (r: seq<int>)
    ensures forall j :: 0 <= j < |r| ==> 0 <= r[j] < |scores|
  {
    var sorted := SortDesc<int>(Range(|scores|), IndexScore(scores));
    SortedIndices(|scores|, IndexScore(scores));
    Take(sorted, k)
  }

  /** The chunk for record `m` with the score it got. */
  function Hit(m: ChunkMeta, score: real): (d: DocChunk)
    ensures d.id == m.id && d.source == m.source && d.chunkIndex == m.chunkIndex && d.text == m.text
    ensures d.score == score && d.tag == BM25
  {
    DocChunk(m.id, m.text, m.source, m.chunkIndex, score, BM25)
  }

  /** `search(query, k)` given the scorer's score for every record. */
  function Search(index: Option<Bm25Index>, scores: seq<real>, k: int): (r: Result<seq<DocChunk>>)
    requires index.Some? ==> |scores| == |index.value.meta|
    ensures r.Err? <==> index.None? || index.value.meta == []
    ensures r.Err? ==> r.error == Bm25NotBuilt
  {
    if index.None? || index.value.meta == [] then Err(Bm25NotBuilt)
    else
      var meta := index.value.meta;
      var top := TopIdxs(scores, k);
      Ok(seq(|top|, j requires 0 <= j < |top| => Hit(meta[top[j]], scores[top[j]])))
  }

  /** What a search returns: one chunk per selected index, the record at
      that index carrying that index's score, `min(k, n)` of them for a
      non-negative `k`. */
  lemma SearchSpec(index: Bm25Index, scores: seq<real>, k: int)
    requires |scores| == |index.meta| > 0
    ensures var r := Search(Some(index), scores, k);
      var top := TopIdxs(scores, k);
      r.Ok? && |r.value| == |top|
      && (0 <= k ==> |r.value| == Min(k, |scores|))
      && (forall j :: 0 <= j < |top| ==> r.value[j] == Hit(index.meta[top[j]], scores[top[j]]))
  {
  }

  /** The selected indices come by descending score, and equal scores in
      corpus order (so no index is selected twice). */
  lemma TopIdxsOrder(scores: seq<real>, k: int)
    ensures var top := TopIdxs(scores, k);
      (forall i, j :: 0 <= i < j < |top| ==> scores[top[i]] >= scores[top[j]])
      && (forall i, j :: 0 <= i < j < |top| && scores[top[i]] == scores[top[j]] ==> top[i] < top[j])
  {
    var n := |scores|;
    var key := IndexScore(scores);
    var sorted := SortDesc<int>(Range(n), key);
    SortDescCorrect<int>(Range(n), key);
    var top := TopIdxs(scores, k);
    assert forall j :: 0 <= j < |top| ==> top[j] == sorted[j] && key(top[j]) == scores[top[j]];
    forall i, j | 0 <= i < j < |top| && scores[top[i]] == scores[top[j]] ensures top[i] < top[j] {
      assert top == sorted[..|top|];
      assert top[i] == sorted[i] && top[j] == sorted[j] && j < |sorted|;
      TieOrder(n, key, i, j);
    }
  }

  /** An index left out scores no higher than any selected one. */
  lemma TopIdxsBest(scores: seq<real>, k: int, x: int)
    requires 0 <= x < |scores| && x !in TopIdxs(scores, k)
    ensures forall j :: 0 <= j < |TopIdxs(scores, k)| ==> scores[TopIdxs(scores, k)[j]] >= scores[x]
  {
    var n := |scores|;
    var key := IndexScore(scores);
    assert Range(n)[x] == x;
    TopKBeatsRest<int>(Range(n), key, k, x);
    var top := TopIdxs(scores, k);
    forall j | 0 <= j < |top| ensures scores[top[j]] >= scores[x] {
      assert top[j] in Take(SortDesc<int>(Range(n), key), k);
    }
  }

  /** Every entry of the sorted index list is an index. */
  lemma SortedIndices(n: nat, key: int -> real)
    ensures forall j :: 0 <= j < n ==> 0 <= SortDesc<int>(Range(n), key)[j] < n
  {
    var sorted := SortDesc<int>(Range(n), key);
    forall j | 0 <= j < n ensures 0 <= sorted[j] < n {
      var x := sorted[j];
      assert x in multiset(Range(n));
      var i :| 0 <= i < n && Range(n)[i] == x;
    }
  }

  /** Ties keep their input order: two sorted positions with equal keys hold
      indices in increasing order. */
  lemma TieOrder(n: nat, key: int -> real, i: nat, j: nat)
    requires var r := SortDesc<int>(Range(n), key);
      i < j < |r| && key(r[i]) == key(r[j])
    ensures SortDesc<int>(Range(n), key)[i] < SortDesc<int>(Range(n), key)[j]
  {
    SortDescStable<int>(Range(n), key, Identity<int>);
  }
}
