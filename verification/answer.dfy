/** Grounded answering: the budgeted context assembler (shared, with a
    smaller budget, by document exploration), the exact "Not available in
    documents." policy and the citation list. */
module Answer {
  import opened Common
  import opened Text
  import opened Seqs
  import opened Schemas
  import opened Oracle

  /** The context budget of `generate_answer`, in characters. */
  const MAX_CHARS: int := 24000
  const NOT_AVAILABLE := "Not available in documents."
  /** A reply mentioning the phrase counts as a refusal below this length. */
  const SHORT_REPLY: int := 60

  // ---------------------------------------------------------------------
  // Context assembly.

  /** The walk `_format_context` makes, over any items: skipped items are
      passed over, and the first item whose cost exceeds the `room` left
      ends the walk, even if a later, cheaper item would fit. */
  function Fit<T>(xs: seq<T>, skip: T -> bool, cost: T -> nat, room: int): seq<T> {
    if xs == [] then []
    else if skip(xs[0]) then Fit(xs[1..], skip, cost, room)
    else if cost(xs[0]) > room then []
    else [xs[0]] + Fit(xs[1..], skip, cost, room - cost(xs[0]))
  }

  /** What the walk keeps fits the budget together. */
  lemma {:induction false} FitWithin<T>(xs: seq<T>, skip: T -> bool, cost: T -> nat, room: int)
    ensures var r := Fit(xs, skip, cost, room); r == [] || SumOf(r, cost) <= room
  {
    if xs != [] {
      FitWithin(xs[1..], skip, cost, room);
      if !skip(xs[0]) && cost(xs[0]) <= room {
        var rest := Fit(xs[1..], skip, cost, room - cost(xs[0]));
        FitWithin(xs[1..], skip, cost, room - cost(xs[0]));
        SumOfCons(xs[0], rest, cost);
      }
    }
  }

  /** The items the walk does not skip, in order. */
  function Kept<T>(xs: seq<T>, skip: T -> bool): (r: seq<T>)
    ensures |r| <= |xs|
  {
    if xs == [] then []
    else (if skip(xs[0]) then [] else [xs[0]]) + Kept(xs[1..], skip)
  }

  /** The walk keeps the longest run of leading unskipped items whose
      costs fit the budget together. */
  lemma {:induction false} FitLongest<T>(xs: seq<T>, skip: T -> bool, cost: T -> nat, room: int)
    ensures var all, r := Kept(xs, skip), Fit(xs, skip, cost, room);
      |r| <= |all| && r == all[..|r|] && (|r| < |all| ==> SumOf(all[..|r| + 1], cost) > room)
  {
    if xs != [] {
      var x := xs[0];
      var all' := Kept(xs[1..], skip);
      if skip(x) {
        FitLongest(xs[1..], skip, cost, room);
        assert Kept(xs, skip) == all';
      } else if cost(x) > room {
        assert Kept(xs, skip)[..1] == [x] + [];
        SumOfCons(x, [], cost);
      } else {
        assert Kept(xs, skip) == [x] + all';
        FitLongest(xs[1..], skip, cost, room - cost(x));
        FitStep(x, all', Fit(xs[1..], skip, cost, room - cost(x)), cost, room);
      }
    }
  }

  lemma FitStep<T>(x: T, all': seq<T>, r': seq<T>, cost: T -> nat, room: int)
    requires |r'| <= |all'| && r' == all'[..|r'|]
    requires |r'| < |all'| ==> SumOf(all'[..|r'| + 1], cost) > room - cost(x)
    ensures var all, r := [x] + all', [x] + r';
      |r| <= |all| && r == all[..|r|] && (|r| < |all| ==> SumOf(all[..|r| + 1], cost) > room)
  {
    assert ([x] + all')[..|r'| + 1] == [x] + all'[..|r'|];
    if |r'| < |all'| {
      assert ([x] + all')[..|r'| + 2] == [x] + all'[..|r'| + 1];
      SumOfCons(x, all'[..|r'| + 1], cost);
    }
  }

  /** The walk keeps nothing exactly when every item is skipped or the
      first unskipped item is over budget on its own. */
  lemma FitEmptyIff<T>(xs: seq<T>, skip: T -> bool, cost: T -> nat, room: int)
    ensures Fit(xs, skip, cost, room) == [] <==>
      Kept(xs, skip) == [] || cost(Kept(xs, skip)[0]) > room
  {
    var all, r := Kept(xs, skip), Fit(xs, skip, cost, room);
    FitLongest(xs, skip, cost, room);
    if r == [] && all != [] {
      assert all[..1] == [all[0]] + [];
      SumOfCons(all[0], [], cost);
    }
    if r != [] {
      assert r[0] == all[0];
      assert r == [r[0]] + r[1..];
      SumOfCons(r[0], r[1..], cost);
    }
  }

  /** `Fit` on the items from `i` on, unfolded once. */
  lemma FitAt<T>(xs: seq<T>, i: nat, skip: T -> bool, cost: T -> nat, room: int)
    requires i < |xs|
    ensures Fit(xs[i..], skip, cost, room) ==
      if skip(xs[i]) then Fit(xs[i + 1..], skip, cost, room)
      else if cost(xs[i]) > room then []
      else [xs[i]] + Fit(xs[i + 1..], skip, cost, room - cost(xs[i]))
  {
    assert xs[i..][1..] == xs[i + 1..];
  }

  /** "[source | chunk i]\ntext\n", with the chunk text stripped. */
  function Block(d: DocChunk): string {
    "[" + d.source + " | chunk " + IntToString(d.chunkIndex) + "]\n" + Strip(d.text) + "\n"
  }

  function BlockLen(d: DocChunk): nat {
    |Block(d)|
  }

  /** Every block opens its label with "[" and ends with a newline, and
      `BlockLen` is its length. */
  lemma BlocksShaped()
    ensures forall d :: BlockLen(d) == |Block(d)| && IsBlock(Block(d))
  {
  }

  /** A chunk whose text is empty once stripped contributes no block. */
  predicate Blank(d: DocChunk) {
    Strip(d.text) == ""
  }

  /** The chunks whose blocks make up the context of budget `maxChars`. */
  function Accepted(docs: seq<DocChunk>, maxChars: int): seq<DocChunk> {
    Fit(docs, Blank, BlockLen, maxChars)
  }

  /** The shape of every context block: a "[" label and a final newline. */
  predicate IsBlock(b: string) {
    |b| >= 2 && b[0] == '[' && b[|b| - 1] == '\n'
  }

  /** Joining blocks with "\n" adds one separator between neighbours; the
      result starts with "[" and ends with "\n". */
  lemma {:induction false} JoinShape<T>(xs: seq<T>, block: T -> string, len: T -> nat)
    requires |xs| > 0
    requires forall x :: len(x) == |block(x)| && IsBlock(block(x))
    ensures var j := Join(Keys(xs, block), "\n");
      |j| == SumOf(xs, len) + |xs| - 1 && |j| > 0 && j[0] == '[' && j[|j| - 1] == '\n'
  {
    var bs := Keys(xs, block);
    assert xs == [xs[0]] + xs[1..];
    SumOfCons(xs[0], xs[1..], len);
    if |xs| > 1 {
      JoinShape(xs[1..], block, len);
      assert bs[1..] == Keys(xs[1..], block);
    } else {
      assert xs[1..] == [];
    }
  }

  /** A string ending in white space loses at least that character to `strip`. */
  lemma StripDropsTrailing(s: string)
    requires |s| > 0 && IsSpace(s[|s| - 1])
    ensures |Strip(s)| < |s|
  {
  }

  /** `Accepted` on the chunks from `i` on, unfolded once. */
  lemma AcceptedAt(docs: seq<DocChunk>, i: nat, room: int)
    requires i < |docs|
    ensures Blank(docs[i]) ==> Accepted(docs[i..], room) == Accepted(docs[i + 1..], room)
    ensures !Blank(docs[i]) && BlockLen(docs[i]) > room ==> Accepted(docs[i..], room) == []
    ensures !Blank(docs[i]) && BlockLen(docs[i]) <= room ==>
      Accepted(docs[i..], room) == [docs[i]] + Accepted(docs[i + 1..], room - BlockLen(docs[i]))
  {
    FitAt(docs, i, Blank, BlockLen, room);
  }

  /** Joined and stripped, some blocks give a non-empty string one
      character shorter than their lengths plus separators. */
  lemma StripJoinShape<T>(xs: seq<T>, block: T -> string, len: T -> nat)
    requires |xs| > 0
    requires forall x :: len(x) == |block(x)| && IsBlock(block(x))
    ensures var c := Strip(Join(Keys(xs, block), "\n"));
      c != "" && |c| <= SumOf(xs, len) + |xs| - 2
  {
    var j := Join(Keys(xs, block), "\n");
    JoinShape(xs, block, len);
    assert !AllSpace(j) by { assert !IsSpace(j[0]); }
    StripDropsTrailing(j);
  }

  /** `_format_context(docs, max_chars)`: the accepted blocks joined with
      "\n" and stripped. It is empty exactly when no block was accepted, and
      it can overrun the budget by the uncounted separators, less the final
      newline that `strip` removes. */
  function FormatContext(docs: seq<DocChunk>, maxChars: int): (c: string)
    ensures c == "" <==> Accepted(docs, maxChars) == []
    ensures c != "" ==> |c| <= maxChars + |Accepted(docs, maxChars)| - 2
  {
    var taken := Accepted(docs, maxChars);
    if taken == [] then
      assert Join(Keys(taken, Block), "\n") == "";
      Strip(Join(Keys(taken, Block), "\n"))
    else
      BlocksShaped();
      FitWithin(docs, Blank, BlockLen, maxChars);
      StripJoinShape(taken, Block, BlockLen);
      Strip(Join(Keys(taken, Block), "\n"))
  }

  /** The loop of `_format_context`, over any item type: skip the items
      `skip` marks, stop at the first block that would push `total` past
      `room`, collect the blocks of the rest. It collects exactly the blocks
      of the items `Fit` selects. */
  method FitLoop<T>(xs: seq<T>, skip: T -> bool, block: T -> string, cost: T -> nat, room: int)
    returns (parts: seq<string>)
    requires forall x :: cost(x) == |block(x)|
    ensures parts == Keys(Fit(xs, skip, cost, room), block)
  {
    parts := [];
    var total := 0;
    var i := 0;
    ghost var taken: seq<T> := [];
    AppendEmpty(xs);
    AppendEmpty(Fit(xs, skip, cost, room));
    while i < |xs|
      invariant 0 <= i <= |xs|
      invariant parts == Keys(taken, block) && total == SumOf(taken, cost)
      invariant taken + Fit(xs[i..], skip, cost, room - total) == Fit(xs, skip, cost, room)
    {
      var x := xs[i];
      if skip(x) {
        FitSkipStep(xs, i, taken, skip, cost, room - total, Fit(xs, skip, cost, room));
        i := i + 1;
        continue;
      }
      var b := block(x);
      assert |b| == cost(x);
      if total + |b| > room {
        FitStopStep(xs, i, taken, skip, cost, room - total, Fit(xs, skip, cost, room));
        break;
      }
      FitTakeStep(xs, i, taken, skip, cost, room - total, Fit(xs, skip, cost, room));
      assert room - total - cost(x) == room - (total + |b|);
      SumOfSnoc(taken, x, cost);
      KeysSnoc(taken, x, block);
      taken := taken + [x];
      parts := parts + [b];
      total := total + |b|;
      i := i + 1;
    }
  }

  lemma FitSkipStep<T>(xs: seq<T>, i: nat, taken: seq<T>, skip: T -> bool, cost: T -> nat, left: int, whole: seq<T>)
    requires i < |xs| && skip(xs[i])
    requires taken + Fit(xs[i..], skip, cost, left) == whole
    ensures taken + Fit(xs[i + 1..], skip, cost, left) == whole
  {
    FitAt(xs, i, skip, cost, left);
  }

  lemma FitStopStep<T>(xs: seq<T>, i: nat, taken: seq<T>, skip: T -> bool, cost: T -> nat, left: int, whole: seq<T>)
    requires i < |xs| && !skip(xs[i]) && cost(xs[i]) > left
    requires taken + Fit(xs[i..], skip, cost, left) == whole
    ensures taken == whole
  {
    FitAt(xs, i, skip, cost, left);
  }

  lemma FitTakeStep<T>(xs: seq<T>, i: nat, taken: seq<T>, skip: T -> bool, cost: T -> nat, left: int, whole: seq<T>)
    requires i < |xs| && !skip(xs[i]) && cost(xs[i]) <= left
    requires taken + Fit(xs[i..], skip, cost, left) == whole
    ensures (taken + [xs[i]]) + Fit(xs[i + 1..], skip, cost, left - cost(xs[i])) == whole
  {
    FitAt(xs, i, skip, cost, left);
    AppendAssoc(taken, [xs[i]], Fit(xs[i + 1..], skip, cost, left - cost(xs[i])));
  }

  /** `_format_context` as a loop: the same text as `FormatContext`. */
  method FormatContextLoop(docs: seq<DocChunk>, maxChars: int) returns (context: string)
    ensures context == FormatContext(docs, maxChars)
  {
    BlocksShaped();
    var parts := FitLoop(docs, Blank, Block, BlockLen, maxChars);
    context := Strip(Join(parts, "\n"));
  }

  // ---------------------------------------------------------------------
  // The answer policy and citations.

  /** The replies the policy replaces by the fallback sentence: empty, the
      sentence itself in any letter case, or a short reply mentioning it. */
  predicate Declines(reply: string) {
    || reply == ""
    || Lower(Strip(reply)) == "not available in documents."
    || (Contains(Lower(reply), "not available in documents") && |reply| < SHORT_REPLY)
  }

  function Enforce(reply: string): string {
    if Declines(reply) then NOT_AVAILABLE else reply
  }

  /** The non-empty sources of the chunks, in order, repeats kept. */
  function Sources(docs: seq<DocChunk>): (r: seq<string>)
    ensures forall s :: s in r <==> s != "" && exists d :: d in docs && d.source == s
  {
    if docs == [] then []
    else
      var rest := Sources(docs[1..]);
      assert forall d :: d in docs <==> d == docs[0] || d in docs[1..];
      (if docs[0].source == "" then [] else [docs[0].source]) + rest
  }

  /** The citation list: every non-empty source among the chunks, once, in
      order of first appearance. */
  function Citations(docs: seq<DocChunk>): (r: seq<string>)
    ensures forall i, j :: 0 <= i < j < |r| ==> r[i] != r[j]
    ensures forall s :: s in r <==> s != "" && exists d :: d in docs && d.source == s
    ensures forall i, j :: 0 <= i < j < |r| ==> FirstIdx(Sources(docs), r[i]) < FirstIdx(Sources(docs), r[j])
  {
    DedupCorrect(Sources(docs));
    Dedup(Sources(docs))
  }

  /** `generate_answer(llm, question, docs)`: with no context the fallback
      sentence and no citations, whatever the model would say; otherwise
      the stripped reply under the policy, with the citations of ALL the
      chunks, including those the budget or blank text kept out. */
  function GenerateAnswer(llm: Llm, question: string, docs: seq<DocChunk>): (r: (string, seq<string>))
    ensures Accepted(docs, MAX_CHARS) == [] ==> r == (NOT_AVAILABLE, [])
    ensures Accepted(docs, MAX_CHARS) != [] ==> r.1 == Citations(docs)
    ensures Accepted(docs, MAX_CHARS) != [] ==>
      var reply := Strip(llm(AnswerPrompt(FormatContext(docs, MAX_CHARS), question)));
      (Declines(reply) ==> r.0 == NOT_AVAILABLE) && (!Declines(reply) ==> r.0 == reply)
  {
    var context := FormatContext(docs, MAX_CHARS);
    if context == "" then (NOT_AVAILABLE, [])
    else
      var reply := Strip(llm(AnswerPrompt(context, question)));
      (Enforce(reply), Citations(docs))
  }

  /** The answer is either exactly the fallback sentence or a stripped,
      non-empty reply the policy lets through. */
  lemma AnswerPassesPolicy(llm: Llm, question: string, docs: seq<DocChunk>)
    ensures var a := GenerateAnswer(llm, question, docs).0;
      a == NOT_AVAILABLE || (a != "" && Strip(a) == a && !Declines(a))
  {
    var context := FormatContext(docs, MAX_CHARS);
    if context != "" {
      StripIdempotent(llm(AnswerPrompt(context, question)));
    }
  }

  /** Without context the model is not consulted: any two models give the
      same result. */
  lemma NoContextIgnoresModel(llm1: Llm, llm2: Llm, question: string, docs: seq<DocChunk>)
    requires FormatContext(docs, MAX_CHARS) == ""
    ensures GenerateAnswer(llm1, question, docs) == GenerateAnswer(llm2, question, docs) == (NOT_AVAILABLE, [])
  {
  }

  /** The context is empty exactly when every chunk is blank or the first
      chunk with text has a block over budget on its own. */
  lemma NoContextIff(docs: seq<DocChunk>)
    ensures FormatContext(docs, MAX_CHARS) == "" <==>
      Kept(docs, Blank) == [] || |Block(Kept(docs, Blank)[0])| > MAX_CHARS
  {
    FitEmptyIff(docs, Blank, BlockLen, MAX_CHARS);
  }
}
