/** The language-model reranker: the candidates are shown to the model as
    numbered passages, and its free-form reply is read back as an ordering of
    those passages. The reply is read strictly as a JSON object
    `{"ranking": [...]}` and loosely as comma- or line-separated numbers, and
    falls back to the original order when neither yields a usable index. */
module Reranker {
  import opened Common
  import opened Text
  import opened Seqs
  import opened Json
  import opened Schemas
  import opened Oracle

  const DEFAULT_TOP_K := 5
  /** Characters of each passage's stripped text shown to the model. */
  const PASSAGE_CHARS := 1200

  // ---------------------------------------------------------------------
  // The prompt

  /** The `i`-th passage block (1-based): "[P{i}]\n" and the start of the
      chunk's stripped text. */
  function Passage(i: nat, d: DocChunk): string {
    "[P" + NatToString(i) + "]\n" + Take(Strip(d.text), PASSAGE_CHARS)
  }

  /** Every passage block, each labelled with its 1-based position. */
  function Blocks(docs: seq<DocChunk>): (r: seq<string>)
    ensures |r| == |docs|
    ensures forall i :: 0 <= i < |docs| ==> r[i] == Passage(i + 1, docs[i])
  {
    seq(|docs|, i requires 0 <= i < |docs| => Passage(i + 1, docs[i]))
  }

  /** The `passages` argument of the prompt: the blocks separated by a blank line. */
  function Passages(docs: seq<DocChunk>): string {
    Join(Blocks(docs), "\n\n")
  }

  /** Each block starts with its label "[P{i}]" and a newline, where `i`
      is the 1-based passage number, and the rest of the block is at most
      1200 characters from the front of the stripped text. */
  lemma PassageParts(docs: seq<DocChunk>, i: nat)
    requires i < |docs|
    ensures var b := Blocks(docs)[i];
      var num := NatToString(i + 1);
      var body := b[|num| + 4..];
      && |b| >= |num| + 4
      && b[..|num| + 4] == "[P" + num + "]\n"
      && |body| == Min(PASSAGE_CHARS, |Strip(docs[i].text)|)
      && body == Strip(docs[i].text)[..|body|]
  {
    var num := NatToString(i + 1);
    var body := Take(Strip(docs[i].text), PASSAGE_CHARS);
    assert Blocks(docs)[i] == ("[P" + num + "]\n") + body;
  }

  /** The digits between "[P" and "]" read back as the 1-based passage number. */
  lemma PassageNumber(docs: seq<DocChunk>, i: nat)
    requires i < |docs|
    ensures var b := Blocks(docs)[i];
      var num := NatToString(i + 1);
      && |b| >= |num| + 4
      && AllDigits(b[2..|num| + 2]) && DigitsValue(b[2..|num| + 2]) == i + 1
  {
    var num := NatToString(i + 1);
    var body := Take(Strip(docs[i].text), PASSAGE_CHARS);
    assert Blocks(docs)[i] == "[P" + num + "]\n" + body;
    MiddleSlice("[P", num, "]\n", body);
    DigitsValueOfNatToString(i + 1);
  }

  lemma MiddleSlice(a: string, m: string, c: string, z: string)
    ensures |a + m + c + z| >= |a| + |m|
    ensures (a + m + c + z)[|a|..|a| + |m|] == m
  {
    assert (a + m + c + z)[|a|..|a| + |m|] == (a + m)[|a|..];
  }

  /** The model's reply to the rerank prompt, stripped (`None` reads as ""). */
  function Reply(llm: Llm, query: string, docs: seq<DocChunk>): string {
    Strip(llm(RerankPrompt(query, Passages(docs))))
  }

  // ---------------------------------------------------------------------
  // Reading the reply

  /** `json.loads(raw).get("ranking")` when that is a list. A decode
      failure, a decoded value that is not an object (it has no `.get`) and
      a "ranking" that is missing or not a list all give `None`. */
  function StrictRanking(decode: string -> Option<Json>, raw: string): (r: Option<seq<Json>>)
    ensures r.Some? <==>
      decode(raw).Some? && decode(raw).value.JObj? && Get(decode(raw).value.fields, "ranking").JList?
    ensures r.Some? ==> Get(decode(raw).value.fields, "ranking") == JList(r.value)
  {
    match decode(raw)
    case Some(JObj(fields)) =>
      (match Get(fields, "ranking")
       case JList(items) => Some(items)
       case _ => None)
    case _ => None
  }

  /** The reply with newlines turned into commas and spaces deleted. */
  function Cleaned(raw: string): (r: string)
    ensures '\n' !in r && ' ' !in r
  {
    ReplaceChar(ReplaceChar(raw, '\n', ","), ' ', "")
  }

  /** `[int(p) for p in parts if p and p.isdigit()]`. */
  function DigitTokens(parts: seq<string>): (r: seq<nat>)
    ensures |r| <= |parts|
  {
    if |parts| == 0 then []
    else (if AllDigits(parts[0]) then [DigitsValue(parts[0])] else []) + DigitTokens(parts[1..])
  }

  /** The loose reading: the numbers among the comma-separated pieces. */
  function LooseRanking(raw: string): seq<nat> {
    DigitTokens(Split(Cleaned(raw), ','))
  }

  /** A number of the loose reading as a ranking entry: always an integer. */
  function NumberEntry(x: nat): Option<int> { Some(x) }

  /** The `ranking` list the code goes on with, each entry as the integer it
      denotes or `None` for a non-integer entry. A non-empty strict list is
      used as it is; an empty or missing one gives way to the loose reading.
      An empty result means neither reading produced anything. */
  function Ranking(decode: string -> Option<Json>, raw: string): seq<Option<int>> {
    var strict := StrictRanking(decode, raw);
    if strict.Some? && |strict.value| > 0 then Keys(strict.value, AsInt)
    else Keys(LooseRanking(raw), NumberEntry)
  }

  // ---------------------------------------------------------------------
  // Normalising the ranking to positions

  /** The 0-based position a ranking entry names, when it names one of the
      `n` passages. */
  function Valid(x: Option<int>, n: nat): (r: seq<nat>)
    ensures |r| <= 1
  {
    if x.Some? && 0 <= x.value - 1 < n then [x.value - 1] else []
  }

  /** The positions named by the ranking, in ranking order, repeats kept. */
  function Candidates(ranking: seq<Option<int>>, n: nat): (r: seq<nat>)
    ensures forall k :: 0 <= k < |r| ==> r[k] < n
  {
    if |ranking| == 0 then []
    else Candidates(ranking[..|ranking| - 1], n) + Valid(ranking[|ranking| - 1], n)
  }

  lemma CandidatesSnoc(prefix: seq<Option<int>>, x: Option<int>, n: nat)
    ensures Candidates(prefix + [x], n) == Candidates(prefix, n) + Valid(x, n)
  {
    assert (prefix + [x])[..|prefix|] == prefix;
  }

  lemma CandidatesPrefix(ranking: seq<Option<int>>, i: nat, n: nat)
    requires i < |ranking|
    ensures Candidates(ranking[..i + 1], n) == Candidates(ranking[..i], n) + Valid(ranking[i], n)
  {
    assert ranking[..i + 1][..i] == ranking[..i];
  }

  /** A position is a candidate exactly when the ranking names it, 1-based. */
  lemma {:induction false} CandidatesIff(ranking: seq<Option<int>>, n: nat, j: int)
    ensures j in Candidates(ranking, n) <==> 0 <= j < n && Some(j + 1) in ranking
  {
    if |ranking| > 0 {
      var init := ranking[..|ranking| - 1];
      var x := ranking[|ranking| - 1];
      CandidatesIff(init, n, j);
      assert ranking == init + [x];
      assert Some(j + 1) in ranking <==> Some(j + 1) in init || x == Some(j + 1);
    }
  }

  /** The normalised order: the named positions without repeats, or every
      position in original order when the ranking names none. */
  function Normalize(ranking: seq<Option<int>>, n: nat): (o: seq<nat>)
    ensures forall k :: 0 <= k < |o| ==> o[k] < n
    ensures Distinct(o)
    ensures n > 0 ==> |o| > 0
  {
    var c := Dedup<nat>(Candidates(ranking, n));
    DedupCorrect<nat>(Candidates(ranking, n));
    assert forall k :: 0 <= k < |c| ==> c[k] in Candidates(ranking, n);
    if c == [] then Range(n) else c
  }

  /** One more ranking entry adds its position to the candidates when it
      names a passage, and adds nothing otherwise. */
  lemma CandidatesStep(ranking: seq<Option<int>>, i: nat, n: nat)
    requires i < |ranking|
    ensures var x := ranking[i];
      Candidates(ranking[..i + 1], n) ==
        if x.Some? && 0 <= x.value - 1 < n then Candidates(ranking[..i], n) + [(x.value - 1) as nat]
        else Candidates(ranking[..i], n)
  {
    CandidatesPrefix(ranking, i, n);
    assert Candidates(ranking[..i], n) + [] == Candidates(ranking[..i], n);
  }

  /** The loop that builds the order with a `seen` set computes `Normalize`. */
  method NormalizeLoop(ranking: seq<Option<int>>, n: nat) returns (norm: seq<nat>)
    ensures norm == Normalize(ranking, n)
  {
    var seen: set<nat> := {};
    norm := [];
    var i := 0;
    ghost var c: seq<nat> := [];
    while i < |ranking|
      invariant 0 <= i <= |ranking|
      invariant c == Candidates(ranking[..i], n)
      invariant norm == Dedup<nat>(c)
      invariant forall x :: x in seen <==> x in norm
    {
      var idx := ranking[i];
      CandidatesStep(ranking, i, n);
      if idx.Some? && 0 <= idx.value - 1 < n {
        var j: nat := idx.value - 1;
        DedupSnoc<nat>(c, j);
        if j !in seen {
          norm := norm + [j];
          seen := seen + {j};
        }
        c := c + [j];
      }
      i := i + 1;
    }
    assert ranking[..i] == ranking;
    if norm == [] {
      norm := Range(n);
    }
  }

  /** `max(1, min(top_k, len(docs)))`. */
  function Clamp(topK: int, n: nat): (k: int)
    requires n > 0
    ensures 1 <= k <= n
    ensures 1 <= topK <= n ==> k == topK
  {
    Max(1, Min(topK, n))
  }

  ghost predicate Distinct(o: seq<nat>) {
    forall i, j :: 0 <= i < j < |o| ==> o[i] != o[j]
  }

  /** The passage positions whose chunks make up the output: the first
      `Clamp` of the normalised order, or the first `Clamp` positions when
      the reply yielded no ranking at all. */
  function Chosen(ranking: seq<Option<int>>, n: nat, topK: int): (o: seq<nat>)
    requires n > 0
    ensures 1 <= |o| <= Clamp(topK, n)
    ensures forall i :: 0 <= i < |o| ==> o[i] < n
    ensures Distinct(o)
  {
    var k := Clamp(topK, n);
    if |ranking| == 0 then Range(k)
    else
      Take(Normalize(ranking, n), k)
  }

  // ---------------------------------------------------------------------
  // Reranking

  /** The copy of a chunk the reranker returns: only the tag changes. */
  function Retagged(d: DocChunk): (r: DocChunk)
    ensures SameContent(r, d) && r.score == d.score && r.tag == RERANK
  {
    d.(tag := RERANK)
  }

  function Pick(docs: seq<DocChunk>, o: seq<nat>): (r: seq<DocChunk>)
    requires forall i :: 0 <= i < |o| ==> o[i] < |docs|
    ensures |r| == |o| && forall i :: 0 <= i < |o| ==> r[i] == Retagged(docs[o[i]])
  {
    seq(|o|, i requires 0 <= i < |o| => Retagged(docs[o[i]]))
  }

  /** `LLMReranker.rerank`: no candidates gives no output (and asks nothing
      of the model); otherwise between one and `Clamp` candidates, each a
      different input position, retagged "rerank" and otherwise unchanged. */
  function Rerank(llm: Llm, decode: string -> Option<Json>, query: string, docs: seq<DocChunk>,
                  topK: int := DEFAULT_TOP_K): (r: seq<DocChunk>)
    ensures |docs| == 0 ==> r == []
    ensures |docs| > 0 ==> 1 <= |r| <= Clamp(topK, |docs|)
  {
    if |docs| == 0 then []
    else Pick(docs, Chosen(Ranking(decode, Reply(llm, query, docs)), |docs|, topK))
  }

  /** Each output chunk is the copy of a different candidate, at the
      position the chosen order names, with its content and score intact and
      the tag "rerank". */
  lemma RerankPicks(llm: Llm, decode: string -> Option<Json>, query: string, docs: seq<DocChunk>, topK: int)
    requires |docs| > 0
    ensures var r := Rerank(llm, decode, query, docs, topK);
      var o := Chosen(Ranking(decode, Reply(llm, query, docs)), |docs|, topK);
      && |r| == |o| && Distinct(o)
      && forall i :: 0 <= i < |r| ==>
           o[i] < |docs| && SameContent(r[i], docs[o[i]]) && r[i].score == docs[o[i]].score && r[i].tag == RERANK
  {
  }

  // ---------------------------------------------------------------------
  // Properties of the reading

  /** A non-empty JSON ranking list wins over the loose reading. */
  lemma StrictWins(decode: string -> Option<Json>, raw: string, fields: map<string, Json>, items: seq<Json>)
    requires decode(raw) == Some(JObj(fields)) && Get(fields, "ranking") == JList(items) && |items| > 0
    ensures |Ranking(decode, raw)| == |items|
    ensures forall i :: 0 <= i < |items| ==> Ranking(decode, raw)[i] == AsInt(items[i])
  {
  }

  /** Without a non-empty JSON ranking list (no object, no "ranking" key, a
      non-list value or an empty list) the loose reading is used. */
  lemma LooseOtherwise(decode: string -> Option<Json>, raw: string)
    requires !(decode(raw).Some? && decode(raw).value.JObj? &&
               Get(decode(raw).value.fields, "ranking").JList? &&
               |Get(decode(raw).value.fields, "ranking").items| > 0)
    ensures Ranking(decode, raw) == Keys(LooseRanking(raw), NumberEntry)
  {
  }

  /** The numbers of a list rendered with `str`. */
  function Numerals(xs: seq<nat>): (r: seq<string>)
    ensures |r| == |xs| && forall i :: 0 <= i < |xs| ==> r[i] == NatToString(xs[i])
  {
    seq(|xs|, i requires 0 <= i < |xs| => NatToString(xs[i]))
  }

  lemma {:induction false} JoinChars(parts: seq<string>, sep: string, c: char)
    requires c !in sep && forall k :: 0 <= k < |parts| ==> c !in parts[k]
    ensures c !in Join(parts, sep)
  {
    if |parts| > 1 {
      JoinChars(parts[1..], sep, c);
    }
  }

  lemma {:induction false} DigitTokensOfNumerals(xs: seq<nat>)
    ensures DigitTokens(Numerals(xs)) == xs
  {
    if |xs| > 0 {
      DigitsValueOfNatToString(xs[0]);
      DigitTokensOfNumerals(xs[1..]);
      assert Numerals(xs)[1..] == Numerals(xs[1..]);
    }
  }

  /** Digits of a rendered number are neither newlines nor blanks. */
  lemma NumeralChars(x: nat)
    ensures '\n' !in NatToString(x) && ' ' !in NatToString(x) && ',' !in NatToString(x)
  {
    var s := NatToString(x);
    assert forall k :: 0 <= k < |s| ==> IsDigit(s[k]);
  }

  /** Reading back a comma-separated list of numbers gives the numbers. */
  lemma LooseRoundTrip(xs: seq<nat>)
    requires |xs| > 0
    ensures LooseRanking(Join(Numerals(xs), ",")) == xs
  {
    var parts := Numerals(xs);
    var s := Join(parts, ",");
    forall k | 0 <= k < |parts|
      ensures '\n' !in parts[k] && ' ' !in parts[k] && ',' !in parts[k]
    {
      NumeralChars(xs[k]);
    }
    JoinChars(parts, ",", '\n');
    JoinChars(parts, ",", ' ');
    ReplaceAbsent(s, '\n', ",");
    ReplaceAbsent(s, ' ', "");
    SplitJoin(parts, ',');
    DigitTokensOfNumerals(xs);
  }

  // ---------------------------------------------------------------------
  // Properties of the chosen order

  /** When the ranking names no passage, the output is the first `Clamp`
      passages in their original order, the same as when the reply yields
      no ranking at all. */
  lemma ChosenFallback(ranking: seq<Option<int>>, n: nat, topK: int)
    requires n > 0 && Candidates(ranking, n) == []
    ensures Chosen(ranking, n, topK) == Range(Clamp(topK, n))
  {
    assert Dedup<nat>(Candidates(ranking, n)) == [];
  }

  /** When the ranking names some passage, the order keeps only the
      positions the ranking names, without repeats. */
  lemma ChosenIsTake(ranking: seq<Option<int>>, n: nat, topK: int)
    requires n > 0 && Candidates(ranking, n) != []
    ensures Chosen(ranking, n, topK) == Take(Dedup<nat>(Candidates(ranking, n)), Clamp(topK, n))
  {
    var c := Candidates(ranking, n);
    assert |ranking| > 0;
    DedupCorrect<nat>(c);
    assert c[0] in Dedup<nat>(c);
  }

  lemma NamedOfCandidate(ranking: seq<Option<int>>, n: nat, j: nat)
    requires j in Dedup<nat>(Candidates(ranking, n))
    ensures Some(j + 1) in ranking
  {
    DedupCorrect<nat>(Candidates(ranking, n));
    CandidatesIff(ranking, n, j);
  }

  /** Passages the ranking does not name are dropped, not appended: when it
      names at least one passage, every output position is one it named. */
  lemma ChosenOnlyNamed(ranking: seq<Option<int>>, n: nat, topK: int)
    requires n > 0 && Candidates(ranking, n) != []
    ensures forall j :: j in Chosen(ranking, n, topK) ==> Some(j + 1) in ranking
  {
    ChosenIsTake(ranking, n, topK);
    forall j | j in Chosen(ranking, n, topK) ensures Some(j + 1) in ranking {
      TakeIn(Dedup<nat>(Candidates(ranking, n)), Clamp(topK, n), j);
      NamedOfCandidate(ranking, n, j);
    }
  }

  /** Output positions come in the order the ranking first names them. */
  lemma ChosenOrder(ranking: seq<Option<int>>, n: nat, topK: int)
    requires n > 0 && Candidates(ranking, n) != []
    ensures var c := Candidates(ranking, n);
      var o := Chosen(ranking, n, topK);
      forall i, j :: 0 <= i < j < |o| ==> FirstIdx(c, o[i]) < FirstIdx(c, o[j])
  {
    var c := Candidates(ranking, n);
    var o := Chosen(ranking, n, topK);
    var d := Dedup<nat>(c);
    assert o == d[..|o|] by {
      ChosenIsTake(ranking, n, topK);
    }
    DedupCorrect<nat>(c);
    forall i, j | 0 <= i < j < |o| ensures FirstIdx(c, o[i]) < FirstIdx(c, o[j]) {
      assert o[i] == d[i] && o[j] == d[j];
    }
  }

  /** Once `top_k` allows, every passage the ranking names is output. */
  lemma ChosenAllNamed(ranking: seq<Option<int>>, n: nat, topK: int)
    requires n > 0 && Candidates(ranking, n) != []
    requires Clamp(topK, n) >= |Dedup<nat>(Candidates(ranking, n))|
    ensures var c := Candidates(ranking, n);
      forall j :: j in c ==> j in Chosen(ranking, n, topK)
  {
    var c := Candidates(ranking, n);
    ChosenIsTake(ranking, n, topK);
    assert Chosen(ranking, n, topK) == Dedup<nat>(c);
    DedupCorrect<nat>(c);
  }

  /** The reply "2,1" reads loosely as the numbers 2 and 1. */
  lemma LooseTwoOne()
    ensures LooseRanking("2,1") == [2, 1]
  {
    assert NatToString(2) == "2" && NatToString(1) == "1";
    assert Join(Numerals([2, 1]), ",") == "2,1";
    LooseRoundTrip([2, 1]);
  }

  /** The prompt's own example reply "2,0,3" reads loosely as 2, 0 and 3. */
  lemma LooseTwoZeroThree()
    ensures LooseRanking("2,0,3") == [2, 0, 3]
  {
    assert NatToString(2) == "2" && NatToString(0) == "0" && NatToString(3) == "3";
    assert Join(Numerals([2, 0, 3]), ",") == "2,0,3";
    LooseRoundTrip([2, 0, 3]);
  }

  lemma CandidatesTwoOne()
    ensures Candidates([Some(2), Some(1)], 3) == [1, 0]
  {
    CandidatesSnoc([], Some(2), 3);
    CandidatesSnoc([Some(2)], Some(1), 3);
    assert [Some(2)] == [] + [Some(2)];
    assert [Some(2), Some(1)] == [Some(2)] + [Some(1)];
  }

  lemma CandidatesTwoZeroThree()
    ensures Candidates([Some(2), Some(0), Some(3)], 3) == [1, 2]
  {
    CandidatesSnoc([], Some(2), 3);
    CandidatesSnoc([Some(2)], Some(0), 3);
    CandidatesSnoc([Some(2), Some(0)], Some(3), 3);
    assert [Some(2)] == [] + [Some(2)];
    assert [Some(2), Some(0)] == [Some(2)] + [Some(0)];
    assert [Some(2), Some(0), Some(3)] == [Some(2), Some(0)] + [Some(3)];
  }

  /** Two different positions are already free of repeats. */
  lemma DedupPair(x: nat, y: nat)
    requires x != y
    ensures Dedup<nat>([x, y]) == [x, y]
  {
    DedupSnoc<nat>([], x);
    DedupSnoc<nat>([x], y);
    assert [x] == [] + [x];
    assert [x, y] == [x] + [y];
  }

  lemma NormalizeTwoOne()
    ensures Normalize([Some(2), Some(1)], 3) == [1, 0]
  {
    CandidatesTwoOne();
    DedupPair(1, 0);
  }

  lemma NormalizeTwoZeroThree()
    ensures Normalize([Some(2), Some(0), Some(3)], 3) == [1, 2]
  {
    CandidatesTwoZeroThree();
    DedupPair(1, 2);
  }

  lemma RankingZeroBased(decode: string -> Option<Json>)
    requires decode("2,0,3") == None
    ensures Ranking(decode, "2,0,3") == [Some(2), Some(0), Some(3)]
  {
    LooseTwoZeroThree();
    LooseOtherwise(decode, "2,0,3");
  }

  lemma RankingTwoOne(decode: string -> Option<Json>)
    requires decode("2,1") == None
    ensures Ranking(decode, "2,1") == [Some(2), Some(1)]
  {
    LooseTwoOne();
    LooseOtherwise(decode, "2,1");
  }

  lemma ChosenZeroBased(decode: string -> Option<Json>)
    requires decode("2,0,3") == None
    ensures Chosen(Ranking(decode, "2,0,3"), 3, 3) == [1, 2]
  {
    RankingZeroBased(decode);
    NormalizeTwoZeroThree();
  }

  lemma ChosenTwoOne(decode: string -> Option<Json>)
    requires decode("2,1") == None
    ensures Chosen(Ranking(decode, "2,1"), 3, 3) == [1, 0]
  {
    RankingTwoOne(decode);
    NormalizeTwoOne();
  }

  /** The output is the retagged candidates at the chosen positions. */
  lemma RerankOf(llm: Llm, decode: string -> Option<Json>, query: string, docs: seq<DocChunk>, topK: int,
                  raw: string, o: seq<nat>)
    requires |docs| > 0 && Reply(llm, query, docs) == raw && Chosen(Ranking(decode, raw), |docs|, topK) == o
    ensures forall i :: 0 <= i < |o| ==> o[i] < |docs|
    ensures Rerank(llm, decode, query, docs, topK) == Pick(docs, o)
  {
  }

  lemma PickPair(docs: seq<DocChunk>, a: nat, b: nat)
    requires a < |docs| && b < |docs|
    ensures Pick(docs, [a, b]) == [Retagged(docs[a]), Retagged(docs[b])]
  {
  }

  /** The prompt's own example reply "2,0,3" is read 1-based: on three
      passages 0 names none of them, and 2 and 3 name the second and the
      third, so the output is those two in that order. */
  lemma ExampleZeroBased(llm: Llm, decode: string -> Option<Json>, query: string, docs: seq<DocChunk>)
    requires |docs| == 3 && Reply(llm, query, docs) == "2,0,3" && decode("2,0,3") == None
    ensures Rerank(llm, decode, query, docs, 3) == [Retagged(docs[1]), Retagged(docs[2])]
  {
    ChosenZeroBased(decode);
    RerankOf(llm, decode, query, docs, 3, "2,0,3", [1, 2]);
    PickPair(docs, 1, 2);
  }

  /** A reply "2,1" that is not JSON, on three candidates with `top_k` 3,
      puts the second candidate first, then the first, and drops the third. */
  lemma ExampleTwoOne(llm: Llm, decode: string -> Option<Json>, query: string, docs: seq<DocChunk>)
    requires |docs| == 3 && Reply(llm, query, docs) == "2,1" && decode("2,1") == None
    ensures Rerank(llm, decode, query, docs, 3) == [Retagged(docs[1]), Retagged(docs[0])]
  {
    ChosenTwoOne(decode);
    RerankOf(llm, decode, query, docs, 3, "2,1", [1, 0]);
    PickPair(docs, 1, 0);
  }
}
