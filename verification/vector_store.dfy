/** The dense store: the chunk records it builds (blank text skipped, chunk
    positions kept) and the mapping of the nearest-neighbour search's rows
    back to records. Embedding and the similarity search are not modelled:
    the search's (score, row) pairs are given. */
module VectorStore {
  import opened Common
  import opened Text
  import opened Seqs
  import opened Schemas
  import opened Chunkers
  import opened Corpus

  /** The record for chunk `i` of `source`, whose stripped text is `text`. */
  function Record(source: string, i: nat, text: string): ChunkMeta {
    ChunkMeta(ChunkId(source, i), source, i, text)
  }

  /** The records for the chunks of one document from position `i` on:
      each chunk stripped, blank ones dropped, the others keeping their
      position in the chunk list. */
  function ChunkRecords(source: string, chunks: seq<string>, i: nat): (r: seq<ChunkMeta>)
    ensures forall k :: 0 <= k < |r| ==> r[k].text != "" && Strip(r[k].text) == r[k].text
    ensures forall k :: 0 <= k < |r| ==> i <= r[k].chunkIndex < |chunks|
    decreases |chunks| - i
  {
    if i >= |chunks| then []
    else
      var t := Strip(chunks[i]);
      StripIdempotent(chunks[i]);
      (if t == "" then [] else [Record(source, i, t)]) + ChunkRecords(source, chunks, i + 1)
  }

  /** A record is produced exactly for each chunk that is not blank, and it
      carries that chunk's position and stripped text. */
  lemma {:induction false} ChunkRecordsMembers(source: string, chunks: seq<string>, i: nat, m: ChunkMeta)
    ensures m in ChunkRecords(source, chunks, i) <==>
      exists p :: i <= p < |chunks| && Produces(source, chunks, p, m)
    decreases |chunks| - i
  {
    if i < |chunks| {
      var t := Strip(chunks[i]);
      var head := if t == "" then [] else [Record(source, i, t)];
      var rest := ChunkRecords(source, chunks, i + 1);
      assert ChunkRecords(source, chunks, i) == head + rest;
      ChunkRecordsMembers(source, chunks, i + 1, m);
      if m in head {
        assert Produces(source, chunks, i, m);
      }
      if exists p :: i <= p < |chunks| && Produces(source, chunks, p, m) {
        var p :| i <= p < |chunks| && Produces(source, chunks, p, m);
        if p == i {
          assert m in head;
        } else {
          assert m in rest;
        }
      }
    }
  }

  /** Chunk `p` is not blank and `m` is its record. */
  predicate Produces(source: string, chunks: seq<string>, p: nat, m: ChunkMeta)
    requires p < |chunks|
  {
    Strip(chunks[p]) != "" && m == Record(source, p, Strip(chunks[p]))
  }

  /** Chunk positions strictly increase along `r`. */
  ghost predicate PositionsIncrease(r: seq<ChunkMeta>) {
    forall a, b :: 0 <= a < b < |r| ==> r[a].chunkIndex < r[b].chunkIndex
  }

  /** The records come in increasing chunk position. */
  lemma {:induction false} ChunkRecordsOrdered(source: string, chunks: seq<string>, i: nat)
    ensures PositionsIncrease(ChunkRecords(source, chunks, i))
    decreases |chunks| - i
  {
    if i < |chunks| {
      var t := Strip(chunks[i]);
      var head := if t == "" then [] else [Record(source, i, t)];
      var rest := ChunkRecords(source, chunks, i + 1);
      ChunkRecordsOrdered(source, chunks, i + 1);
      assert PositionsIncrease(rest);
      assert forall k :: 0 <= k < |rest| ==> rest[k].chunkIndex > i;
      PrependLower(head, rest, i);
    }
  }

  lemma PrependLower(head: seq<ChunkMeta>, rest: seq<ChunkMeta>, i: nat)
    requires |head| <= 1 && (|head| == 1 ==> head[0].chunkIndex == i)
    requires PositionsIncrease(rest)
    requires forall k :: 0 <= k < |rest| ==> rest[k].chunkIndex > i
    ensures PositionsIncrease(head + rest)
  {
    var r := head + rest;
    forall a, b | 0 <= a < b < |r| ensures r[a].chunkIndex < r[b].chunkIndex {
      assert r[b] == rest[b - |head|];
      if a >= |head| {
        assert r[a] == rest[a - |head|];
      }
    }
  }

  /** A blank chunk in the middle leaves a gap in the chunk positions. */
  lemma BlankChunkGap()
    ensures ChunkRecords("d.pdf", ["a", " ", "b"], 0) == [Record("d.pdf", 0, "a"), Record("d.pdf", 2, "b")]
  {
    StripOfTrimmed("a");
    StripOfTrimmed("b");
    assert AllSpace(" ");
    assert ChunkRecords("d.pdf", ["a", " ", "b"], 3) == [];
  }

  /** The records of one document; `load` stands for the PDF text
      extraction. A blank document contributes nothing. */
  function DocRecords(path: string, load: string -> string, size: int, overlap: int): (r: Result<seq<ChunkMeta>>)
    ensures AllSpace(load(path)) ==> r == Ok([])
    ensures r.Err? <==> !AllSpace(load(path)) && size <= 0
  {
    var text := Strip(load(path));
    if text == "" then Ok([])
    else
      var chunks :- ChunkText(Some(text), size, overlap);
      Ok(ChunkRecords(Basename(path), chunks, 0))
  }

  /** The records of all documents at `paths`, in order. */
  function BuildRecords(paths: seq<string>, load: string -> string, size: int, overlap: int): (r: Result<seq<ChunkMeta>>)
    ensures r.Ok? ==> forall k :: 0 <= k < |r.value| ==> r.value[k].text != "" && Strip(r.value[k].text) == r.value[k].text
  {
    if paths == [] then Ok([])
    else
      var own :- DocRecords(paths[0], load, size, overlap);
      var rest :- BuildRecords(paths[1..], load, size, overlap);
      Ok(own + rest)
  }

  /** The records of one document when the chunk settings are usable: none
      for a blank document, otherwise the records of its chunks. */
  function PathRecords(path: string, load: string -> string, size: int, overlap: int): seq<ChunkMeta>
    requires size > 0
  {
    if AllSpace(load(path)) then []
    else ChunkRecords(Basename(path), ChunkText(Some(Strip(load(path))), size, overlap).value, 0)
  }

  /** Gathering stops exactly when a document with text meets a window size
      that is not positive; otherwise the records are each path's records,
      in path order, so gathering splits over any division of the paths. */
  lemma {:induction false} BuildRecordsConcat(a: seq<string>, b: seq<string>, load: string -> string, size: int, overlap: int)
    ensures BuildRecords(a + b, load, size, overlap).Ok? <==>
      BuildRecords(a, load, size, overlap).Ok? && BuildRecords(b, load, size, overlap).Ok?
    ensures BuildRecords(a + b, load, size, overlap).Ok? ==>
      BuildRecords(a + b, load, size, overlap).value ==
      BuildRecords(a, load, size, overlap).value + BuildRecords(b, load, size, overlap).value
  {
    if a == [] {
      assert a + b == b;
    } else {
      assert (a + b)[0] == a[0] && (a + b)[1..] == a[1..] + b;
      BuildRecordsConcat(a[1..], b, load, size, overlap);
      var own := DocRecords(a[0], load, size, overlap);
      if own.Ok? && BuildRecords(a + b, load, size, overlap).Ok? {
        AppendAssoc(own.value, BuildRecords(a[1..], load, size, overlap).value, BuildRecords(b, load, size, overlap).value);
      }
    }
  }

  /** A single path gathers exactly its own records. */
  lemma BuildRecordsOne(path: string, load: string -> string, size: int, overlap: int)
    requires size > 0
    ensures BuildRecords([path], load, size, overlap) == Ok(PathRecords(path, load, size, overlap))
  {
    assert [path][1..] == [];
    assert PathRecords(path, load, size, overlap) + [] == PathRecords(path, load, size, overlap);
  }

  /** `build(pdf_dir_or_paths, chunk_size, overlap)`: the records stored, or
      the error raised. */
  function Build(input: PdfInput, load: string -> string, size: int := DEFAULT_SIZE, overlap: int := DEFAULT_OVERLAP): (r: Result<seq<ChunkMeta>>)
    ensures r.Ok? ==> |r.value| > 0
    ensures PdfPaths(input).Err? ==> r == Err(PdfPaths(input).error)
    ensures PdfPaths(input).Ok? && BuildRecords(PdfPaths(input).value, load, size, overlap) == Ok([]) ==>
      r == Err(NoExtractableText)
    ensures r.Ok? ==> forall k :: 0 <= k < |r.value| ==> r.value[k].text != "" && Strip(r.value[k].text) == r.value[k].text
    ensures r.Ok? ==> PdfPaths(input).Ok? && BuildRecords(PdfPaths(input).value, load, size, overlap) == Ok(r.value)
  {
    var paths :- PdfPaths(input);
    var meta :- BuildRecords(paths, load, size, overlap);
    if meta == [] then Err(NoExtractableText) else Ok(meta)
  }

  /** Documents whose extracted text is all blank are an error once they
      are all there is, whatever the chunk settings. */
  lemma {:induction false} AllBlankRecords(paths: seq<string>, load: string -> string, size: int, overlap: int)
    requires forall k :: 0 <= k < |paths| ==> AllSpace(load(paths[k]))
    ensures BuildRecords(paths, load, size, overlap) == Ok([])
  {
    if paths != [] {
      assert AllSpace(load(paths[0]));
      assert DocRecords(paths[0], load, size, overlap) == Ok([]);
      AllBlankRecords(paths[1..], load, size, overlap);
      assert BuildRecords(paths[1..], load, size, overlap).value == [];
      assert BuildRecords(paths, load, size, overlap).value == [];
    }
  }

  lemma AllBlankIsError(input: PdfInput, load: string -> string, size: int, overlap: int)
    requires PdfPaths(input).Ok?
    requires forall k :: 0 <= k < |PdfPaths(input).value| ==> AllSpace(load(PdfPaths(input).value[k]))
    ensures Build(input, load, size, overlap) == Err(NoExtractableText)
  {
    AllBlankRecords(PdfPaths(input).value, load, size, overlap);
  }

  /** Every stored record is named after its document and its chunk position. */
  lemma {:induction false} BuildRecordsNamed(paths: seq<string>, load: string -> string, size: int, overlap: int)
    ensures var r := BuildRecords(paths, load, size, overlap);
      r.Ok? ==> forall k :: 0 <= k < |r.value| ==> r.value[k].id == ChunkId(r.value[k].source, r.value[k].chunkIndex)
  {
    if paths != [] {
      BuildRecordsNamed(paths[1..], load, size, overlap);
      var own := DocRecords(paths[0], load, size, overlap);
      if own.Ok? {
        var text := Strip(load(paths[0]));
        if text != "" {
          var chunks := ChunkText(Some(text), size, overlap).value;
          forall m | m in own.value ensures m.id == ChunkId(m.source, m.chunkIndex) {
            ChunkRecordsMembers(Basename(paths[0]), chunks, 0, m);
          }
        }
      }
    }
  }

  /** The chunk for record `m` with the score the search gave it. */
  function Hit(m: ChunkMeta, score: real): (d: DocChunk)
    ensures d.id == m.id && d.source == m.source && d.chunkIndex == m.chunkIndex && d.text == m.text
    ensures d.score == score && d.tag == VECTOR
  {
    DocChunk(m.id, m.text, m.source, m.chunkIndex, score, VECTOR)
  }

  /** A search row that names a stored record (the search pads with -1). */
  predicate ValidRow(row: (real, int), n: nat) {
    0 <= row.1 < n
  }

  /** The search's rows mapped to chunks, rows outside the records skipped,
      order kept. */
  function Hits(meta: seq<ChunkMeta>, rows: seq<(real, int)>): (r: seq<DocChunk>)
    ensures |r| <= |rows|
    ensures forall d :: d in r <==>
      exists k :: 0 <= k < |rows| && ValidRow(rows[k], |meta|) && d == Hit(meta[rows[k].1], rows[k].0)
  {
    if rows == [] then []
    else
      var rest := Hits(meta, rows[1..]);
      var own := if ValidRow(rows[0], |meta|) then [Hit(meta[rows[0].1], rows[0].0)] else [];
      assert forall k :: 0 <= k < |rows[1..]| ==> rows[1..][k] == rows[k + 1];
      own + rest
  }

  /** Mapping rows distributes over concatenation, so results come in row order. */
  lemma {:induction false} HitsConcat(meta: seq<ChunkMeta>, a: seq<(real, int)>, b: seq<(real, int)>)
    ensures Hits(meta, a + b) == Hits(meta, a) + Hits(meta, b)
  {
    if a != [] {
      assert (a + b)[1..] == a[1..] + b && (a + b)[0] == a[0];
      HitsConcat(meta, a[1..], b);
      var own := if ValidRow(a[0], |meta|) then [Hit(meta[a[0].1], a[0].0)] else [];
      assert Hits(meta, a + b) == own + Hits(meta, a[1..] + b);
      assert Hits(meta, a) == own + Hits(meta, a[1..]);
      AppendAssoc(own, Hits(meta, a[1..]), Hits(meta, b));
    } else {
      assert a + b == b;
    }
  }

  /** When every row names a record, there is one chunk per row, in row order. */
  lemma {:induction false} HitsAllValid(meta: seq<ChunkMeta>, rows: seq<(real, int)>)
    requires forall k :: 0 <= k < |rows| ==> 0 <= rows[k].1 < |meta|
    ensures var r := Hits(meta, rows);
      |r| == |rows| && forall k :: 0 <= k < |r| ==> r[k] == Hit(meta[rows[k].1], rows[k].0)
  {
    if rows != [] {
      HitsAllValid(meta, rows[1..]);
    }
  }

  /** `search(query, k)` given whether an index is loaded, the stored
      records and the similarity search's rows. */
  function Search(built: bool, meta: seq<ChunkMeta>, rows: seq<(real, int)>): (r: Result<seq<DocChunk>>)
    ensures r.Err? <==> !built || meta == []
    ensures r.Err? ==> r.error == VectorNotBuilt
    ensures r.Ok? ==> |r.value| <= |rows|
    ensures r.Ok? ==> forall k :: 0 <= k < |r.value| ==> r.value[k].tag == VECTOR
    ensures r.Ok? ==> r.value == Hits(meta, rows)
  {
    if !built || meta == [] then Err(VectorNotBuilt)
    else
      var r := Hits(meta, rows);
      assert forall k :: 0 <= k < |r| ==> r[k] in r;
      Ok(r)
  }

  /** Padding rows are dropped: a row with index -1 contributes nothing. */
  lemma PaddingDropped(meta: seq<ChunkMeta>, rows: seq<(real, int)>, score: real)
    requires meta != []
    ensures Search(true, meta, rows + [(score, -1)]) == Search(true, meta, rows)
  {
    HitsConcat(meta, rows, [(score, -1)]);
    assert Hits(meta, [(score, -1)]) == [];
    assert Hits(meta, rows) + [] == Hits(meta, rows);
  }
}
