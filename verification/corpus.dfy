/** What both stores do before indexing: pick the PDF paths to read and
    name the chunks of each document. */
module Corpus {
  import opened Common
  import opened Text
  import opened Seqs
  import opened Sorting
  import opened Schemas

  /** Keeps the elements that satisfy `p`, in order. */
  function Filter<T(!new)>(s: seq<T>, p: T -> bool): (r: seq<T>)
    ensures |r| <= |s|
    ensures forall x :: x in r <==> x in s && p(x)
  {
    if s == [] then []
    else (if p(s[0]) then [s[0]] else []) + Filter(s[1..], p)
  }

  /** `glob(os.path.join(dir, "*.pdf"))` on a listing of the directory's entries: the
      case-sensitive suffix, and no hidden (dot-prefixed) names. */
  predicate GlobPdf(path: string) {
    var name := Basename(path);
    EndsWith(path, ".pdf") && !(|name| > 0 && name[0] == '.')
  }

  /** `sorted(glob(...))`. */
  function GlobPdfs(listing: seq<string>): (r: seq<string>)
    ensures LexSorted(r)
    ensures forall p :: p in r <==> p in listing && GlobPdf(p)
  {
    var r := SortStrings(Filter(listing, GlobPdf));
    assert forall p :: p in r <==> p in multiset(r);
    r
  }

  /** `str(p).lower().endswith(".pdf")`. */
  predicate ListedPdf(path: string) {
    EndsWith(Lower(path), ".pdf")
  }

  /** `sorted([p for p in paths if ...])`. */
  function ListedPdfs(paths: seq<string>): (r: seq<string>)
    ensures LexSorted(r)
    ensures forall p :: p in r <==> p in paths && ListedPdf(p)
  {
    var r := SortStrings(Filter(paths, ListedPdf));
    assert forall p :: p in r <==> p in multiset(r);
    r
  }

  /** Where the documents of a build come from: a directory listing or an
      explicit list of paths. */
  datatype PdfInput = Dir(dir: string, listing: seq<string>) | Paths(paths: seq<string>)

  /** The PDF paths a build reads, or the error it raises when there are none. */
  function PdfPaths(input: PdfInput): (r: Result<seq<string>>)
    ensures r.Ok? ==> |r.value| > 0 && LexSorted(r.value)
    ensures input.Dir? ==> (r.Err? <==> forall p :: p in input.listing ==> !GlobPdf(p))
    ensures input.Paths? ==> (r.Err? <==> forall p :: p in input.paths ==> !ListedPdf(p))
    ensures r.Err? ==> r.error == (if input.Dir? then NoPdfsFound(input.dir) else NoPdfPathsProvided)
  {
    match input
    case Dir(dir, listing) =>
      var ps := GlobPdfs(listing);
      if ps == [] then Err(NoPdfsFound(dir)) else assert ps[0] in ps; Ok(ps)
    case Paths(paths) =>
      var ps := ListedPdfs(paths);
      if ps == [] then Err(NoPdfPathsProvided) else assert ps[0] in ps; Ok(ps)
  }
}
