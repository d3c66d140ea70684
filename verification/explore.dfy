/** Document exploration: the context assembler of grounded answering with a
    smaller budget, a tolerant reading of the model's JSON reply (the whole
    reply, else the span from its first '{' to its last '}', else an empty
    object), and shape validation of that reply with caps on its lists. */
module Explore {
  import opened Common
  import opened Text
  import opened Json
  import opened Oracle
  import opened Schemas
  import opened Answer
  import opened Seqs

  /** The context budget of `explore_document`, in characters. */
  const EXPLORE_CHARS: int := 16000
  const NO_CONTENT := "No readable content retrieved from document."
  const NO_SNAPSHOT := "Document snapshot unavailable."
  const MAX_TOPICS: int := 12
  const MAX_QUESTIONS: int := 20

  /** A suggested question with the passages the model cites for it. */
  datatype Question = Question(q: string, support: Json)

  /** The dictionary `explore_document` returns. `topics` is whatever value
      the reply held, cut to its first twelve entries. */
  datatype Exploration = Exploration(snapshot: Json, topics: Json, questions: seq<Question>)

  /** The fixed result for a document with no readable context. */
  function NoContent(): (e: Exploration)
    ensures e.snapshot == JStr(NO_CONTENT) && e.topics == JList([]) && e.questions == []
  {
    Exploration(JStr(NO_CONTENT), JList([]), [])
  }

  // ---------------------------------------------------------------------
  // Reading the reply.

  /** The JSON value the reply stands for: the reply itself when it decodes,
      else the span from its first '{' to its last '}' when that span is
      non-trivial and decodes, else the empty object. */
  function ParseReply(decode: string -> Option<Json>, raw: string): (r: Json)
    ensures decode(raw).Some? ==> r == decode(raw).value
    ensures decode(raw).None? && ('{' !in raw || '}' !in raw) ==> r == JObj(map[])
  {
    match decode(raw)
    case Some(j) => j
    case None =>
      var start := Find(raw, '{');
      var end := RFind(raw, '}');
      if start != -1 && end != -1 && end > start then
        match decode(raw[start..end + 1])
        case Some(j) => j
        case None => JObj(map[])
      else JObj(map[])
  }

  /** `raw[i..j+1]` runs from the first '{' of `raw` to its last '}' and
      decodes to `v`. */
  predicate BraceSpan(decode: string -> Option<Json>, raw: string, i: int, j: int, v: Json) {
    0 <= i < j < |raw| && raw[i] == '{' && raw[j] == '}' &&
    '{' !in raw[..i] && '}' !in raw[j + 1..] && decode(raw[i..j + 1]) == Some(v)
  }

  /** A reply that does not decode but is read as something other than the
      empty object was read from the span between its first '{' and its
      last '}'. */
  lemma ParseReplySpan(decode: string -> Option<Json>, raw: string)
    requires decode(raw).None? && ParseReply(decode, raw) != JObj(map[])
    ensures exists i, j :: BraceSpan(decode, raw, i, j, ParseReply(decode, raw))
  {
    var start := Find(raw, '{');
    var end := RFind(raw, '}');
    assert BraceSpan(decode, raw, start, end, ParseReply(decode, raw));
  }

  /** When the first '}' of the reply comes before its first '{', even a
      reply that does contain both braces is read as the empty object. */
  lemma BracesOutOfOrder(decode: string -> Option<Json>, raw: string)
    requires decode(raw).None?
    requires forall i, j :: 0 <= i < |raw| && 0 <= j < |raw| && raw[i] == '{' && raw[j] == '}' ==> j < i
    ensures ParseReply(decode, raw) == JObj(map[])
  {
    var start := Find(raw, '{');
    var end := RFind(raw, '}');
    if start != -1 && end != -1 {
      assert raw[start] == '{' && raw[end] == '}';
    }
  }

  // ---------------------------------------------------------------------
  // Shape validation.

  /** `for item in questions`: a list gives its items; iterating a string or
      a dictionary yields strings, which have no `.get` (AttributeError);
      a number, a boolean or None cannot be iterated (TypeError). */
  function Iterate(questions: Json): (r: Result<seq<Json>>)
    ensures r.Ok? <==> questions.JList?
    ensures r.Ok? ==> r.value == questions.items
  {
    match questions
    case JList(items) => Ok(items)
    case JStr(_) => Err(AttributeError)
    case JObj(_) => Err(AttributeError)
    case _ => Err(TypeError)
  }

  /** One question entry: it must be a dictionary, and its "q" (or "" when
      missing or falsy) must be a string; a blank question is dropped. */
  function ReadQuestion(item: Json): (r: Result<Option<Question>>)
    ensures r.Ok? <==> item.JObj? && Or(Get(item.fields, "q"), JStr("")).JStr?
    ensures r.Err? ==> r.error == AttributeError
    ensures r.Ok? ==> (r.value.Some? <==> !AllSpace(Or(Get(item.fields, "q"), JStr("")).s))
    ensures r.Ok? && r.value.Some? ==>
      var q := r.value.value.q;
      q != "" && Strip(q) == q && q == Strip(Or(Get(item.fields, "q"), JStr("")).s)
    ensures r.Ok? && r.value.Some? ==> r.value.value.support == Or(Get(item.fields, "support"), JList([]))
  {
    match item
    case JObj(fields) =>
      (match Or(Get(fields, "q"), JStr(""))
       case JStr(s) =>
         var q := Strip(s);
         StripIdempotent(s);
         if q == "" then Ok(None)
         else Ok(Some(Question(q, Or(Get(fields, "support"), JList([])))))
       case _ => Err(AttributeError))
    case _ => Err(AttributeError)
  }

  /** A loop that reads every entry with `read`, keeps what it yields and
      stops at the first entry it cannot read. */
  function Collect<T, U>(xs: seq<T>, read: T -> Result<Option<U>>): Result<seq<U>> {
    if |xs| == 0 then Ok([])
    else
      match Collect(xs[..|xs| - 1], read)
      case Err(e) => Err(e)
      case Ok(prev) =>
        match read(xs[|xs| - 1])
        case Err(e) => Err(e)
        case Ok(None) => Ok(prev)
        case Ok(Some(y)) => Ok(prev + [y])
  }

  /** The loop gets through exactly when every entry is readable; when it
      does not, it fails with the error of some entry. */
  lemma {:induction false} CollectOkIff<T, U>(xs: seq<T>, read: T -> Result<Option<U>>)
    ensures Collect(xs, read).Ok? <==> forall k :: 0 <= k < |xs| ==> read(xs[k]).Ok?
    ensures Collect(xs, read).Err? ==> exists k :: 0 <= k < |xs| && read(xs[k]) == Err(Collect(xs, read).error)
  {
    if |xs| > 0 {
      var init := xs[..|xs| - 1];
      CollectOkIff(init, read);
      assert forall k :: 0 <= k < |init| ==> init[k] == xs[k];
    }
  }

  /** What the loop keeps is exactly what the entries yield. */
  lemma {:induction false} CollectMembers<T, U>(xs: seq<T>, read: T -> Result<Option<U>>)
    requires Collect(xs, read).Ok?
    ensures |Collect(xs, read).value| <= |xs|
    ensures forall y :: y in Collect(xs, read).value <==> exists k :: 0 <= k < |xs| && read(xs[k]) == Ok(Some(y))
  {
    if |xs| > 0 {
      var init := xs[..|xs| - 1];
      CollectOkIff(xs, read);
      CollectMembers(init, read);
      assert forall k :: 0 <= k < |init| ==> init[k] == xs[k];
      forall y | exists k :: 0 <= k < |xs| && read(xs[k]) == Ok(Some(y))
        ensures y in Collect(xs, read).value
      {
        var k :| 0 <= k < |xs| && read(xs[k]) == Ok(Some(y));
        if k < |init| {
          assert read(init[k]) == Ok(Some(y));
        }
      }
    }
  }

  /** What one entry contributes: its question when it yields one, or nothing. */
  function Yield<T, U>(x: T, read: T -> Result<Option<U>>): seq<U> {
    if read(x).Ok? && read(x).value.Some? then [read(x).value.value] else []
  }

  /** The reference reading of the entries front to back: the first entry's
      contribution, then the rest's. */
  function Yields<T, U>(xs: seq<T>, read: T -> Result<Option<U>>): seq<U> {
    if |xs| == 0 then [] else Yield(xs[0], read) + Yields(xs[1..], read)
  }

  /** Reading front to back splits at any point. */
  lemma {:induction false} YieldsConcat<T, U>(xs: seq<T>, ys: seq<T>, read: T -> Result<Option<U>>)
    ensures Yields(xs + ys, read) == Yields(xs, read) + Yields(ys, read)
  {
    if |xs| > 0 {
      assert (xs + ys)[1..] == xs[1..] + ys;
      YieldsConcat(xs[1..], ys, read);
      AppendAssoc(Yield(xs[0], read), Yields(xs[1..], read), Yields(ys, read));
    } else {
      assert xs + ys == ys;
    }
  }

  /** The loop, which appends as it goes, keeps what the front-to-back
      reading yields. */
  lemma {:induction false} CollectIsYields<T, U>(xs: seq<T>, read: T -> Result<Option<U>>)
    requires forall k :: 0 <= k < |xs| ==> read(xs[k]).Ok?
    ensures Collect(xs, read) == Ok(Yields(xs, read))
  {
    if |xs| > 0 {
      var init, last := xs[..|xs| - 1], xs[|xs| - 1];
      assert forall k :: 0 <= k < |init| ==> init[k] == xs[k];
      CollectIsYields(init, read);
      assert xs[..|xs| - 1] == init;
      assert read(last).Ok?;
      assert Yields([last], read) == Yield(last, read) + Yields([last][1..], read);
      assert Yields([last], read) == Yield(last, read);
      YieldsConcat(init, [last], read);
      assert init + [last] == xs;
      assert Yields(xs, read) == Yields(init, read) + Yield(last, read);
      if read(last).value.Some? {
        assert Collect(xs, read) == Ok(Yields(init, read) + [read(last).value.value]);
        assert Yield(last, read) == [read(last).value.value];
      } else {
        assert Collect(xs, read) == Ok(Yields(init, read));
        assert Yield(last, read) == [];
        assert Yields(init, read) + [] == Yields(init, read);
      }
    } else {
      assert Yields(xs, read) == [];
    }
  }

  /** The questions kept from the entries, in entry order; the first
      unreadable entry raises AttributeError. Each kept question is stripped
      and non-blank, and comes from one of the entries. */
  function Clean(items: seq<Json>): (r: Result<seq<Question>>)
    ensures r.Err? <==> exists k :: 0 <= k < |items| && ReadQuestion(items[k]).Err?
    ensures r.Err? ==> r.error == AttributeError
    ensures r.Ok? ==> |r.value| <= |items|
    ensures r.Ok? ==> r.value == Yields(items, ReadQuestion)
    ensures r.Ok? ==> forall x :: x in r.value <==> exists k :: 0 <= k < |items| && ReadQuestion(items[k]) == Ok(Some(x))
    ensures r.Ok? ==> forall k :: 0 <= k < |r.value| ==> r.value[k].q != "" && Strip(r.value[k].q) == r.value[k].q
  {
    var r := Collect(items, ReadQuestion);
    CollectOkIff(items, ReadQuestion);
    if r.Ok? then
      CollectMembers(items, ReadQuestion);
      CollectIsYields(items, ReadQuestion);
      assert forall k :: 0 <= k < |r.value| ==> r.value[k] in r.value;
      r
    else r
  }

  /** Cleaning two runs of entries one after the other keeps the first run's
      questions, then the second's. */
  lemma CleanConcat(a: seq<Json>, b: seq<Json>)
    requires Clean(a + b).Ok?
    ensures Clean(a).Ok? && Clean(b).Ok?
    ensures Clean(a + b).value == Clean(a).value + Clean(b).value
  {
    assert forall k :: 0 <= k < |a| ==> a[k] == (a + b)[k];
    assert forall k :: 0 <= k < |b| ==> b[k] == (a + b)[|a| + k];
    YieldsConcat(a, b, ReadQuestion);
  }

  /** The loop of `explore_document` over the question entries computes `Clean`. */
  method CleanLoop(items: seq<Json>) returns (r: Result<seq<Question>>)
    ensures r == Clean(items)
  {
    var clean: seq<Question> := [];
    var i := 0;
    while i < |items|
      invariant 0 <= i <= |items|
      invariant Collect(items[..i], ReadQuestion) == Ok(clean)
    {
      assert items[..i + 1][..i] == items[..i];
      var item := ReadQuestion(items[i]);
      if item.Err? {
        assert Clean(items).Err?;
        return Err(item.error);
      }
      if item.value.Some? {
        clean := clean + [item.value.value];
      }
      i := i + 1;
    }
    assert items[..i] == items;
    r := Ok(clean);
  }

  /** `topics[:12]`: a list or a string is cut to twelve entries; any other
      value cannot be sliced (TypeError). */
  function CutTopics(topics: Json): (r: Result<Json>)
    ensures r.Ok? <==> topics.JList? || topics.JStr?
    ensures r.Ok? && topics.JList? ==> r.value.JList? && |r.value.items| == Min(MAX_TOPICS, |topics.items|) && r.value.items == topics.items[..|r.value.items|]
    ensures r.Ok? && topics.JStr? ==> r.value.JStr? && |r.value.s| == Min(MAX_TOPICS, |topics.s|) && r.value.s == topics.s[..|r.value.s|]
  {
    match topics
    case JList(xs) => Ok(JList(Take(xs, MAX_TOPICS)))
    case JStr(s) => Ok(JStr(Take(s, MAX_TOPICS)))
    case _ => Err(TypeError)
  }

  /** The caps and cleaning every returned result satisfies: a truthy
      snapshot, at most twelve topics (a list or a string), at most twenty
      questions, each stripped and non-blank. */
  ghost predicate Capped(e: Exploration) {
    && Truthy(e.snapshot)
    && (e.topics.JList? || e.topics.JStr?)
    && (e.topics.JList? ==> |e.topics.items| <= MAX_TOPICS)
    && (e.topics.JStr? ==> |e.topics.s| <= MAX_TOPICS)
    && |e.questions| <= MAX_QUESTIONS
    && forall k :: 0 <= k < |e.questions| ==> e.questions[k].q != "" && Strip(e.questions[k].q) == e.questions[k].q
  }

  /** The result built from the decoded reply: it must be a dictionary; a
      missing or falsy snapshot, topics or questions takes its default. */
  function Shape(data: Json): (r: Result<Exploration>)
    ensures r.Ok? ==> data.JObj? && Capped(r.value)
    ensures r.Ok? ==> r.value.snapshot == Or(Get(data.fields, "snapshot"), JStr(NO_SNAPSHOT))
    ensures r.Ok? ==> CutTopics(Or(Get(data.fields, "topics"), JList([]))) == Ok(r.value.topics)
    ensures r.Ok? ==>
      var qs := Or(Get(data.fields, "questions"), JList([]));
      qs.JList? && r.value.questions == Take(Yields(qs.items, ReadQuestion), MAX_QUESTIONS)
    ensures r.Err? ==> r.error == AttributeError || r.error == TypeError
  {
    if !data.JObj? then Err(AttributeError)
    else
      var f := data.fields;
      var snapshot := Or(Get(f, "snapshot"), JStr(NO_SNAPSHOT));
      var topics := Or(Get(f, "topics"), JList([]));
      var questions := Or(Get(f, "questions"), JList([]));
      match Iterate(questions)
      case Err(e) => Err(e)
      case Ok(items) =>
        match Clean(items)
        case Err(e) => Err(e)
        case Ok(clean) =>
          match CutTopics(topics)
          case Err(e) => Err(e)
          case Ok(t) => Ok(Exploration(snapshot, t, Take(clean, MAX_QUESTIONS)))
  }

  /** Shape validation succeeds exactly when the reply is a dictionary whose
      questions (after defaults) are a list of readable entries and whose
      topics (after defaults) are a list or a string. */
  lemma ShapeOkIff(data: Json)
    ensures Shape(data).Ok? <==>
      && data.JObj?
      && Or(Get(data.fields, "questions"), JList([])).JList?
      && (forall k :: 0 <= k < |Or(Get(data.fields, "questions"), JList([])).items| ==>
            ReadQuestion(Or(Get(data.fields, "questions"), JList([])).items[k]).Ok?)
      && (Or(Get(data.fields, "topics"), JList([])).JList? || Or(Get(data.fields, "topics"), JList([])).JStr?)
  {
    if data.JObj? {
      var questions := Or(Get(data.fields, "questions"), JList([]));
      if questions.JList? {
        assert Clean(questions.items).Ok? <==>
          forall k :: 0 <= k < |questions.items| ==> ReadQuestion(questions.items[k]).Ok?;
      }
    }
  }

  /** An empty object (what an unreadable reply becomes) yields the
      placeholder snapshot and no topics or questions. */
  lemma EmptyObjectDefaults()
    ensures Shape(JObj(map[])) == Ok(Exploration(JStr(NO_SNAPSHOT), JList([]), []))
  {
    assert Clean([]) == Ok([]);
  }

  // ---------------------------------------------------------------------
  // The operation.

  /** The model's reply to the exploration prompt for `context`, stripped
      and read as JSON. */
  function ReplyData(llm: Llm, decode: string -> Option<Json>, context: string): Json {
    ParseReply(decode, Strip(llm(ExplorePrompt(context))))
  }

  /** `explore_document(llm, docs)`: without readable context the fixed
      result; otherwise the model's reply, read and validated. */
  function ExploreDocument(llm: Llm, decode: string -> Option<Json>, docs: seq<DocChunk>): (r: Result<Exploration>)
    ensures FormatContext(docs, EXPLORE_CHARS) == "" ==> r == Ok(NoContent())
    ensures r.Ok? ==> Capped(r.value)
    ensures FormatContext(docs, EXPLORE_CHARS) != "" ==> r == Shape(ReplyData(llm, decode, FormatContext(docs, EXPLORE_CHARS)))
    ensures var data := ReplyData(llm, decode, FormatContext(docs, EXPLORE_CHARS));
      FormatContext(docs, EXPLORE_CHARS) != "" && r.Ok? ==>
        && data.JObj?
        && r.value.snapshot == Or(Get(data.fields, "snapshot"), JStr(NO_SNAPSHOT))
        && CutTopics(Or(Get(data.fields, "topics"), JList([]))) == Ok(r.value.topics)
        && r.value.questions == Take(Yields(Or(Get(data.fields, "questions"), JList([])).items, ReadQuestion), MAX_QUESTIONS)
  {
    var context := FormatContext(docs, EXPLORE_CHARS);
    if context == "" then Ok(NoContent())
    else Shape(ReplyData(llm, decode, context))
  }

  /** Without context neither the model nor the decoder is consulted. */
  lemma NoContextIgnoresModel(llm1: Llm, llm2: Llm, decode1: string -> Option<Json>, decode2: string -> Option<Json>,
                              docs: seq<DocChunk>)
    requires Accepted(docs, EXPLORE_CHARS) == []
    ensures ExploreDocument(llm1, decode1, docs) == ExploreDocument(llm2, decode2, docs) == Ok(NoContent())
  {
  }

  /** A reply with no '{' at all that is not JSON by itself gives the
      defaults. */
  lemma UnreadableReplyDefaults(llm: Llm, decode: string -> Option<Json>, docs: seq<DocChunk>)
    requires FormatContext(docs, EXPLORE_CHARS) != ""
    requires var raw := Strip(llm(ExplorePrompt(FormatContext(docs, EXPLORE_CHARS))));
      decode(raw).None? && '{' !in raw
    ensures ExploreDocument(llm, decode, docs) == Ok(Exploration(JStr(NO_SNAPSHOT), JList([]), []))
  {
    EmptyObjectDefaults();
  }
}
