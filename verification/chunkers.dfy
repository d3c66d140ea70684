/** The sliding-window chunker: fixed-size windows over the stripped text,
    each starting `size - overlap` characters after the previous one. */
module Chunkers {
  import opened Common
  import opened Text
  import opened Seqs

  const DEFAULT_SIZE: int := 800
  const DEFAULT_OVERLAP: int := 200

  /** The overlap actually used: one that is not smaller than the window is
      replaced by a quarter of the window. */
  function EffectiveOverlap(size: int, overlap: int): int {
    if overlap >= size then Max(0, size / 4) else overlap
  }

  /** How far each window starts after the previous one. */
  function Step(size: int, overlap: int): (s: int)
    requires size > 0
    ensures s >= 1
    ensures overlap >= 0 ==> s <= size
    ensures overlap < 0 ==> s > size
  {
    size - EffectiveOverlap(size, overlap)
  }

  /** `ceil(n / step)`. */
  function Count(n: nat, step: int): nat
    requires step >= 1
  {
    (n + step - 1) / step
  }

  /** Where window `i` starts: `i * step`, built up one step at a time so
      that the proofs below stay in linear arithmetic. */
  function Start(i: nat, step: nat): nat {
    if i == 0 then 0 else Start(i - 1, step) + step
  }

  lemma {:induction false} StartIsProduct(i: nat, step: nat)
    ensures Start(i, step) == i * step
  {
    if i > 0 {
      StartIsProduct(i - 1, step);
      assert (i - 1) * step + step == i * step;
    }
  }

  lemma {:induction false} StartLe(i: nat, j: nat, step: nat)
    requires i <= j
    ensures Start(i, step) <= Start(j, step)
    ensures i < j ==> Start(i, step) + step <= Start(j, step)
    decreases j - i
  {
    if i < j {
      StartLe(i, j - 1, step);
    }
  }

  /** `x / d` rounds down: `d * (x / d) <= x < d * (x / d) + d`. */
  lemma DivBounds(x: nat, d: int)
    requires d >= 1
    ensures (x / d) * d <= x < (x / d) * d + d
  {
  }

  /** The window whose stride contains position `p`. */
  lemma {:induction false} WindowOf(p: nat, step: nat) returns (i: nat)
    requires step >= 1
    ensures Start(i, step) <= p < Start(i, step) + step
    decreases p
  {
    if p < step {
      i := 0;
    } else {
      var i' := WindowOf(p - step, step);
      i := i' + 1;
    }
  }

  /** Window `i` starts inside the text exactly when `i` is below the count. */
  lemma CountBound(n: nat, step: int, i: nat)
    requires step >= 1
    ensures Start(i, step) < n <==> i < Count(n, step)
  {
    var c := Count(n, step);
    DivBounds(n + step - 1, step);
    StartIsProduct(c, step);
    assert n <= Start(c, step) <= n + step - 1;
    if i < c {
      StartLe(i, c - 1, step);
      assert Start(c, step) == Start(c - 1, step) + step;
    } else {
      StartLe(c, i, step);
    }
  }

  /** The windows the loop emits from position `start` on. */
  function WindowsFrom(t: string, size: int, step: int, start: nat): seq<string>
    requires size > 0 && step >= 1
    decreases |t| - start
  {
    if start >= |t| then []
    else [t[start..Min(start + size, |t|)]] + WindowsFrom(t, size, step, start + step)
  }

  /** `chunk_text(text, size, overlap)`, with `None` read as "". */
  function ChunkText(text: Option<string>, size: int := DEFAULT_SIZE, overlap: int := DEFAULT_OVERLAP): (r: Result<seq<string>>)
    ensures r.Err? <==> !AllSpace(text.GetOr("")) && size <= 0
    ensures r.Err? ==> r.error == ChunkSizeNotPositive
    ensures AllSpace(text.GetOr("")) ==> r == Ok([])
  {
    var t := Strip(text.GetOr(""));
    if t == [] then Ok([])
    else if size <= 0 then Err(ChunkSizeNotPositive)
    else Ok(WindowsFrom(t, size, Step(size, overlap), 0))
  }

  /** Window `i` of `t`: `t[i*step : min(i*step + size, n)]`. */
  function Window(t: string, size: int, step: int, i: nat): string
    requires size > 0 && step >= 1 && Start(i, step) < |t|
  {
    t[Start(i, step)..Min(Start(i, step) + size, |t|)]
  }

  /** Closed form of the windows from window `j` on: there are
      `ceil(n/step) - j` of them and the one at position `i - j` is window `i`. */
  lemma {:induction false} WindowsFromSpec(t: string, size: int, step: int, j: nat)
    requires size > 0 && step >= 1 && j <= Count(|t|, step)
    ensures |WindowsFrom(t, size, step, Start(j, step))| == Count(|t|, step) - j
    ensures forall i :: j <= i < Count(|t|, step) ==>
      Start(i, step) < |t| && WindowsFrom(t, size, step, Start(j, step))[i - j] == Window(t, size, step, i)
    decreases |t| - Start(j, step)
  {
    CountBound(|t|, step, j);
    var r := WindowsFrom(t, size, step, Start(j, step));
    if Start(j, step) < |t| {
      assert Start(j + 1, step) == Start(j, step) + step;
      WindowsFromSpec(t, size, step, j + 1);
      var rest := WindowsFrom(t, size, step, Start(j + 1, step));
      assert r == [Window(t, size, step, j)] + rest;
      forall i | j <= i < Count(|t|, step) ensures Start(i, step) < |t| && r[i - j] == Window(t, size, step, i) {
        if i > j {
          assert r[i - j] == rest[i - (j + 1)];
        }
      }
    } else {
      assert r == [];
    }
  }

  /** The chunks of a non-blank text, in closed form: `ceil(n/step)` of them,
      chunk `i` being `t[i*step : min(i*step + size, n)]` of the stripped
      text `t`, each non-empty and at most `size` long. */
  lemma ChunkShape(text: string, size: int, overlap: int)
    requires !AllSpace(text) && size > 0
    ensures var t, step, r := Strip(text), Step(size, overlap), ChunkText(Some(text), size, overlap);
      r.Ok? && |r.value| == Count(|t|, step)
      && forall i :: 0 <= i < |r.value| ==>
        Start(i, step) < |t| && r.value[i] == Window(t, size, step, i) && 0 < |r.value[i]| <= size
  {
    var t, step := Strip(text), Step(size, overlap);
    var r := ChunkText(Some(text), size, overlap);
    WindowsFromSpec(t, size, step, 0);
    assert r.value == WindowsFrom(t, size, step, Start(0, step));
    forall i | 0 <= i < |r.value|
      ensures Start(i, step) < |t| && r.value[i] == Window(t, size, step, i) && 0 < |r.value[i]| <= size
    {
      assert r.value[i] == WindowsFrom(t, size, step, Start(0, step))[i - 0];
    }
  }

  /** Chunk `i` of text `t` covers position `p`. */
  predicate Covers(t: string, size: int, step: int, i: nat, p: int)
    requires size > 0 && step >= 1
  {
    Start(i, step) <= p < Min(Start(i, step) + size, |t|)
  }

  /** Some one of the first `count` chunks covers position `p`. */
  ghost predicate Covered(t: string, size: int, step: int, count: nat, p: int)
    requires size > 0 && step >= 1
  {
    exists i :: 0 <= i < count && Covers(t, size, step, i, p)
  }

  /** Windows no further apart than their size leave no position uncovered. */
  lemma WindowsCover(t: string, size: int, step: int)
    requires size > 0 && 1 <= step <= size
    ensures forall p :: 0 <= p < |t| ==> Covered(t, size, step, Count(|t|, step), p)
  {
    forall p | 0 <= p < |t| ensures Covered(t, size, step, Count(|t|, step), p) {
      var i := WindowOf(p, step);
      CountBound(|t|, step, i);
      assert Covers(t, size, step, i, p);
    }
  }

  /** With such windows, the last one reaches the end of the text. */
  lemma LastWindowEnds(t: string, size: int, step: int)
    requires size > 0 && 1 <= step <= size && |t| > 0
    ensures var c := Count(|t|, step);
      c > 0 && Start(c - 1, step) < |t| <= Start(c - 1, step) + size
  {
    var c := Count(|t|, step);
    CountBound(|t|, step, 0);
    CountBound(|t|, step, c);
    CountBound(|t|, step, c - 1);
    assert Start(c, step) == Start(c - 1, step) + step;
  }

  /** Without a negative overlap, every character of the stripped text lies
      in some chunk, and the last chunk runs to the end of the text. */
  lemma ChunksCover(text: string, size: int, overlap: int)
    requires !AllSpace(text) && size > 0 && overlap >= 0
    ensures var t, step, r := Strip(text), Step(size, overlap), ChunkText(Some(text), size, overlap).value;
      (forall p :: 0 <= p < |t| ==> Covered(t, size, step, |r|, p))
      && |r| > 0 && Start(|r| - 1, step) + |r[|r| - 1]| == |t|
  {
    var t, step := Strip(text), Step(size, overlap);
    ChunkShape(text, size, overlap);
    WindowsCover(t, size, step);
    LastWindowEnds(t, size, step);
  }

  /** A negative overlap opens gaps: with a text longer than one window,
      the character at position `size` lies in no chunk. */
  lemma NegativeOverlapGap(text: string, size: int, overlap: int)
    requires !AllSpace(text) && size > 0 && overlap < 0 && |Strip(text)| > size
    ensures var t, step, r := Strip(text), Step(size, overlap), ChunkText(Some(text), size, overlap).value;
      forall i :: 0 <= i < |r| ==> !Covers(t, size, step, i, size)
  {
    var t, step, r := Strip(text), Step(size, overlap), ChunkText(Some(text), size, overlap).value;
    ChunkShape(text, size, overlap);
    forall i | 0 <= i < |r| ensures !Covers(t, size, step, i, size) {
      if i >= 1 {
        StartLe(1, i, step);
      }
    }
  }

  /** The loop as written: emit a window, advance by the step, stop once the
      start reaches the end. */
  method ChunkLoop(text: Option<string>, size: int, overlap: int) returns (r: Result<seq<string>>)
    ensures r == ChunkText(text, size, overlap)
  {
    var t := Strip(text.GetOr(""));
    if t == [] {
      return Ok([]);
    }
    if size <= 0 {
      return Err(ChunkSizeNotPositive);
    }
    var ov := overlap;
    if ov >= size {
      ov := Max(0, size / 4);
    }
    var step := size - ov;
    assert step == Step(size, overlap);
    var chunks: seq<string> := [];
    var start: nat := 0;
    var n := |t|;
    while start < n
      invariant chunks + WindowsFrom(t, size, step, start) == WindowsFrom(t, size, step, 0)
      decreases n - start
    {
      var end := Min(start + size, n);
      AppendAssoc(chunks, [t[start..end]], WindowsFrom(t, size, step, start + step));
      chunks := chunks + [t[start..end]];
      start := start + step;
    }
    assert WindowsFrom(t, size, step, start) == [];
    assert chunks + [] == chunks;
    r := Ok(chunks);
  }

  /** A run of `n` copies of one letter. */
  function Letters(n: nat): string {
    seq(n, _ => 'a')
  }

  lemma LettersStripped(n: nat)
    requires n > 0
    ensures Strip(Letters(n)) == Letters(n) && !AllSpace(Letters(n))
  {
    StripOfTrimmed(Letters(n));
  }

  /** 2000 characters with windows of 800 overlapping by 200 give four
      chunks, none longer than 800. */
  lemma TwoThousandChars()
    ensures var r := ChunkText(Some(Letters(2000)), 800, 200);
      r.Ok? && |r.value| == 4 && forall i :: 0 <= i < |r.value| ==> |r.value[i]| <= 800
  {
    LettersStripped(2000);
    ChunkShape(Letters(2000), 800, 200);
  }

  /** 700 characters give two chunks, the second lying wholly inside the first. */
  lemma SevenHundredChars()
    ensures var r := ChunkText(Some(Letters(700)), 800, 200);
      r.Ok? && |r.value| == 2 && r.value[0] == Letters(700) && r.value[1] == Letters(700)[600..]
  {
    LettersStripped(700);
    ChunkShape(Letters(700), 800, 200);
  }
}
