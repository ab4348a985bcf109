/**
 * `TokenCounter.create_chunk_with_overlap` and `TokenCounter.chunk_text`
 * (backend/utils/chunker.py:72-133), and the module-level `chunk_text`
 * wrapper (chunker.py:212-226).
 *
 * Every bound the code enforces is on the sum of per-sentence token counts;
 * a joined chunk is never counted again, so the properties below are stated
 * over those sums. The loop of `chunk_text` is specified by `SentencePlan`,
 * which lists each chunk as a window of sentences.
 *
 * As written, the loop stops at the first sentence that alone exceeds the
 * budget, and that sentence and all later ones are in no chunk.
 * `CompletePlan` is the corrected loop, which emits such a sentence as a
 * chunk of its own and so covers every sentence.
 */
module SentenceChunking {

  import opened TokenCounting
  import opened TextSplit

  /** Default of `max_tokens` in the module-level wrappers. */
  const DefaultMaxTokens: int := 1000

  /** Default of `overlap_tokens`. */
  const DefaultOverlapTokens: int := 100

  /** What `chunk_text` joins the sentences of a chunk with. */
  const SentenceSeparator: string := " "

  function Max(a: int, b: int): int {
    if a >= b then a else b
  }

  /** The sum of the token counts of the parts. */
  function SumTokens(tc: TokenCounter, parts: seq<string>): nat {
    if parts == [] then 0 else CountTokens(tc, parts[0]) + SumTokens(tc, parts[1..])
  }

  lemma {:induction false} SumTokensAppend(tc: TokenCounter, parts: seq<string>, s: string)
    ensures SumTokens(tc, parts + [s]) == SumTokens(tc, parts) + CountTokens(tc, s)
  {
    if parts != [] {
      assert (parts + [s])[1..] == parts[1..] + [s];
      SumTokensAppend(tc, parts[1..], s);
    }
  }

  /** No part costs more than the whole. */
  lemma {:induction false} SumTokensBoundsPart(tc: TokenCounter, parts: seq<string>, i: nat)
    requires i < |parts|
    ensures CountTokens(tc, parts[i]) <= SumTokens(tc, parts)
  {
    if i > 0 {
      SumTokensBoundsPart(tc, parts[1..], i - 1);
    }
  }

  /** A longer prefix never costs less. */
  lemma {:induction false} SumTokensPrefixMonotone(tc: TokenCounter, parts: seq<string>, m: nat, n: nat)
    requires m <= n <= |parts|
    ensures SumTokens(tc, parts[..m]) <= SumTokens(tc, parts[..n])
    decreases n - m
  {
    if m < n {
      SumTokensPrefixMonotone(tc, parts, m, n - 1);
      assert parts[..n] == parts[..n - 1] + [parts[n - 1]];
      SumTokensAppend(tc, parts[..n - 1], parts[n - 1]);
    }
  }

  /** Python's `sep.join(parts)`. */
  function Join(sep: string, parts: seq<string>): string {
    if parts == [] then ""
    else if |parts| == 1 then parts[0]
    else parts[0] + sep + Join(sep, parts[1..])
  }

  /** Joining non-empty parts gives the empty string only for no parts at all. */
  lemma JoinOfNonEmptyParts(sep: string, parts: seq<string>)
    requires forall i :: 0 <= i < |parts| ==> parts[i] != ""
    ensures Join(sep, parts) == "" <==> parts == []
  {
    if parts != [] {
      assert |Join(sep, parts)| >= |parts[0]| > 0;
    }
  }

  // ---------------------------------------------------------------------
  // create_chunk_with_overlap
  // ---------------------------------------------------------------------

  /**
   * How many leading parts the greedy accumulation takes: it stops at the
   * first part that would push the running sum above the budget.
   */
  function GreedyCount(tc: TokenCounter, parts: seq<string>, budget: int): (n: nat)
    ensures n <= |parts|
  {
    if parts == [] || CountTokens(tc, parts[0]) > budget then 0
    else 1 + GreedyCount(tc, parts[1..], budget - CountTokens(tc, parts[0]))
  }

  /** The greedy prefix, when it takes anything, fits the budget. */
  lemma {:induction false} GreedyPrefixFits(tc: TokenCounter, parts: seq<string>, budget: int)
    ensures GreedyCount(tc, parts, budget) > 0 ==> SumTokens(tc, parts[..GreedyCount(tc, parts, budget)]) <= budget
  {
    var n := GreedyCount(tc, parts, budget);
    if n > 0 {
      GreedyPrefixFits(tc, parts[1..], budget - CountTokens(tc, parts[0]));
      assert parts[..n][1..] == parts[1..][..n - 1];
    }
  }

  /**
   * The greedy prefix fits the budget, and one more part would overflow it;
   * since sums only grow, every longer prefix overflows too.
   */
  lemma GreedyCountIsLongestFit(tc: TokenCounter, parts: seq<string>, budget: int)
    ensures var n := GreedyCount(tc, parts, budget);
            (n > 0 ==> SumTokens(tc, parts[..n]) <= budget)
            && (forall m :: n < m <= |parts| ==> SumTokens(tc, parts[..m]) > budget)
  {
    var n := GreedyCount(tc, parts, budget);
    GreedyPrefixFits(tc, parts, budget);
    if n < |parts| {
      GreedyOverflowsNext(tc, parts, budget);
      forall m | n < m <= |parts| ensures SumTokens(tc, parts[..m]) > budget {
        SumTokensPrefixMonotone(tc, parts, n + 1, m);
      }
    }
  }

  lemma {:induction false} GreedyOverflowsNext(tc: TokenCounter, parts: seq<string>, budget: int)
    requires GreedyCount(tc, parts, budget) < |parts|
    ensures SumTokens(tc, parts[..GreedyCount(tc, parts, budget) + 1]) > budget
  {
    var n := GreedyCount(tc, parts, budget);
    if n > 0 {
      var c := CountTokens(tc, parts[0]);
      GreedyOverflowsNext(tc, parts[1..], budget - c);
      assert parts[..n + 1][1..] == parts[1..][..n];
    }
  }

  /** The greedy prefix never reaches past a part that alone exceeds the budget. */
  lemma {:induction false} GreedyStopsBeforeOversized(tc: TokenCounter, parts: seq<string>, budget: int, j: nat)
    requires j < |parts| && CountTokens(tc, parts[j]) > budget
    ensures GreedyCount(tc, parts, budget) <= j
  {
    if j > 0 && CountTokens(tc, parts[0]) <= budget {
      GreedyStopsBeforeOversized(tc, parts[1..], budget - CountTokens(tc, parts[0]), j - 1);
    }
  }

  /**
   * `create_chunk_with_overlap`: takes the longest prefix of the sentences
   * whose token sum stays within max_tokens - overlap_tokens, and returns it
   * joined with single spaces together with its length.
   */
  method CreateChunkWithOverlap(tc: TokenCounter, sentences: seq<string>, maxTokens: int, overlapTokens: int)
    returns (chunk: string, used: nat)
    ensures used == GreedyCount(tc, sentences, maxTokens - overlapTokens)
    ensures chunk == Join(SentenceSeparator, sentences[..used])
  {
    var parts: seq<string> := [];
    var currentTokens: nat := 0;
    used := 0;
    while used < |sentences|
      invariant used <= |sentences|
      invariant parts == sentences[..used]
      invariant currentTokens == SumTokens(tc, parts)
      invariant used + GreedyCount(tc, sentences[used..], maxTokens - overlapTokens - currentTokens)
                == GreedyCount(tc, sentences, maxTokens - overlapTokens)
    {
      var sentenceTokens := CountTokens(tc, sentences[used]);
      if currentTokens + sentenceTokens > maxTokens - overlapTokens {
        break;
      }
      assert sentences[used..][1..] == sentences[used + 1..];
      SumTokensAppend(tc, parts, sentences[used]);
      parts := parts + [sentences[used]];
      currentTokens := currentTokens + sentenceTokens;
      used := used + 1;
    }
    chunk := Join(SentenceSeparator, parts);
    GreedyCountIsLongestFit(tc, sentences, maxTokens - overlapTokens);
  }

  // ---------------------------------------------------------------------
  // chunk_text
  // ---------------------------------------------------------------------

  /** A chunk as `count` consecutive sentences starting at index `start`. */
  datatype Window = Window(start: nat, count: nat)

  predicate WindowsWithin(windows: seq<Window>, n: nat) {
    forall k :: 0 <= k < |windows| ==> windows[k].start + windows[k].count <= n
  }

  /**
   * The windows `chunk_text` emits from cursor `pos`: a greedy window, then
   * the cursor moves on by max(1, count - 1); it stops at the end of the list
   * or at a sentence that alone exceeds the budget.
   */
  function SentencePlan(tc: TokenCounter, ss: seq<string>, pos: nat, budget: int): (plan: seq<Window>)
    requires pos <= |ss|
    ensures |plan| <= |ss| - pos
    ensures forall k :: 0 <= k < |plan| ==>
              pos <= plan[k].start && 1 <= plan[k].count && plan[k].start + plan[k].count <= |ss|
    decreases |ss| - pos
  {
    if pos == |ss| then []
    else
      var n := GreedyCount(tc, ss[pos..], budget);
      if n == 0 then []
      else [Window(pos, n)] + SentencePlan(tc, ss, pos + Max(1, n - 1), budget)
  }

  /** Where the cursor of `chunk_text` rests when its loop ends. */
  function StopCursor(tc: TokenCounter, ss: seq<string>, pos: nat, budget: int): (c: nat)
    requires pos <= |ss|
    ensures pos <= c <= |ss|
    decreases |ss| - pos
  {
    if pos == |ss| then pos
    else
      var n := GreedyCount(tc, ss[pos..], budget);
      if n == 0 then pos else StopCursor(tc, ss, pos + Max(1, n - 1), budget)
  }

  /** Sentence i lies in some window. */
  ghost predicate Covered(windows: seq<Window>, i: nat) {
    exists k :: 0 <= k < |windows| && windows[k].start <= i < windows[k].start + windows[k].count
  }

  /** The text of a window: its parts joined with the separator. */
  function WindowText(sep: string, ss: seq<string>, w: Window): string
    requires w.start + w.count <= |ss|
  {
    Join(sep, ss[w.start..w.start + w.count])
  }

  /** The texts of the windows, in order. */
  function RenderWindows(sep: string, ss: seq<string>, windows: seq<Window>): (r: seq<string>)
    requires WindowsWithin(windows, |ss|)
    ensures |r| == |windows|
    ensures forall k :: 0 <= k < |r| ==> r[k] == WindowText(sep, ss, windows[k])
  {
    if windows == [] then [] else [WindowText(sep, ss, windows[0])] + RenderWindows(sep, ss, windows[1..])
  }

  /** The chunk strings `chunk_text` emits from cursor `pos`, one loop turn at a time. */
  function PlanChunks(tc: TokenCounter, ss: seq<string>, pos: nat, budget: int): seq<string>
    requires pos <= |ss|
    decreases |ss| - pos
  {
    if pos == |ss| then []
    else
      var n := GreedyCount(tc, ss[pos..], budget);
      if n == 0 then []
      else [WindowText(SentenceSeparator, ss, Window(pos, n))] + PlanChunks(tc, ss, pos + Max(1, n - 1), budget)
  }

  /** The chunks are the rendered windows of the plan. */
  lemma {:induction false} PlanChunksRenderPlan(tc: TokenCounter, ss: seq<string>, pos: nat, budget: int)
    requires pos <= |ss|
    ensures PlanChunks(tc, ss, pos, budget) == RenderWindows(SentenceSeparator, ss, SentencePlan(tc, ss, pos, budget))
    decreases |ss| - pos
  {
    if pos < |ss| {
      var n := GreedyCount(tc, ss[pos..], budget);
      if n > 0 {
        var next := pos + Max(1, n - 1);
        var plan := SentencePlan(tc, ss, pos, budget);
        PlanChunksRenderPlan(tc, ss, next, budget);
        assert plan[1..] == SentencePlan(tc, ss, next, budget);
      }
    }
  }

  /**
   * One turn of the loop of `chunk_text`, given the chunks emitted so far and
   * the result of `create_chunk_with_overlap` at the cursor: an empty chunk
   * means nothing more is planned; otherwise the chunk is the next planned
   * one and the cursor moves on by max(1, used - 1).
   */
  lemma ChunkTextTurn(tc: TokenCounter, ss: seq<string>, budget: int, chunks: seq<string>,
                      pos: nat, chunk: string, used: nat)
    requires pos < |ss| && forall k :: 0 <= k < |ss| ==> ss[k] != ""
    requires used == GreedyCount(tc, ss[pos..], budget) && chunk == Join(SentenceSeparator, ss[pos..][..used])
    ensures chunk == "" ==> chunks + PlanChunks(tc, ss, pos, budget) == chunks
    ensures chunk != "" ==>
              used >= 1
              && (chunks + [chunk]) + PlanChunks(tc, ss, pos + Max(1, used - 1), budget)
                 == chunks + PlanChunks(tc, ss, pos, budget)
  {
    var taken := ss[pos..][..used];
    assert forall i :: 0 <= i < |taken| ==> taken[i] == ss[pos + i];
    JoinOfNonEmptyParts(SentenceSeparator, taken);
    if chunk != "" {
      assert taken == ss[pos..pos + used];
      var later := PlanChunks(tc, ss, pos + Max(1, used - 1), budget);
      assert PlanChunks(tc, ss, pos, budget) == [chunk] + later;
      assert (chunks + [chunk]) + later == chunks + ([chunk] + later);
    }
  }

  /** The window lies within the list and its sentences sum to at most the budget. */
  predicate WindowFits(tc: TokenCounter, ss: seq<string>, w: Window, budget: int) {
    w.start + w.count <= |ss| && SumTokens(tc, ss[w.start..w.start + w.count]) <= budget
  }

  /** Every window's sentences sum to at most the budget. */
  lemma {:induction false} SentencePlanWithinBudget(tc: TokenCounter, ss: seq<string>, pos: nat, budget: int)
    requires pos <= |ss|
    ensures forall k :: 0 <= k < |SentencePlan(tc, ss, pos, budget)| ==>
              WindowFits(tc, ss, SentencePlan(tc, ss, pos, budget)[k], budget)
    decreases |ss| - pos
  {
    var plan := SentencePlan(tc, ss, pos, budget);
    if plan != [] {
      var n := GreedyCount(tc, ss[pos..], budget);
      GreedyPrefixFits(tc, ss[pos..], budget);
      assert ss[pos..][..n] == ss[pos..pos + n];
      assert WindowFits(tc, ss, Window(pos, n), budget);
      var next := pos + Max(1, n - 1);
      var rest := SentencePlan(tc, ss, next, budget);
      SentencePlanWithinBudget(tc, ss, next, budget);
      assert plan == [Window(pos, n)] + rest;
    }
  }

  /** Window k + 1 starts max(1, count - 1) sentences after window k. */
  predicate StepsAt(plan: seq<Window>, k: nat)
    requires k + 1 < |plan|
  {
    plan[k + 1].start == plan[k].start + Max(1, plan[k].count - 1)
  }

  /**
   * The cursor moves as the source moves it: the first window starts at the
   * cursor, and each next window starts max(1, count - 1) sentences after the
   * previous start, so a window of two or more sentences shares its last
   * sentence with the next window, and a window of one shares nothing.
   */
  lemma {:induction false} SentencePlanAdvance(tc: TokenCounter, ss: seq<string>, pos: nat, budget: int)
    requires pos <= |ss|
    ensures SentencePlan(tc, ss, pos, budget) != [] ==> SentencePlan(tc, ss, pos, budget)[0].start == pos
    ensures forall k: nat :: k + 1 < |SentencePlan(tc, ss, pos, budget)| ==> StepsAt(SentencePlan(tc, ss, pos, budget), k)
    decreases |ss| - pos
  {
    var plan := SentencePlan(tc, ss, pos, budget);
    if plan != [] {
      var n := GreedyCount(tc, ss[pos..], budget);
      var next := pos + Max(1, n - 1);
      var rest := SentencePlan(tc, ss, next, budget);
      SentencePlanAdvance(tc, ss, next, budget);
      assert plan == [Window(pos, n)] + rest;
      forall k: nat | k + 1 < |plan| ensures StepsAt(plan, k) {
        if k > 0 {
          assert StepsAt(rest, k - 1);
        }
      }
    }
  }

  /** The loop stops at the end of the list or at a sentence that alone exceeds the budget. */
  lemma {:induction false} StopCursorReason(tc: TokenCounter, ss: seq<string>, pos: nat, budget: int)
    requires pos <= |ss|
    ensures var stop := StopCursor(tc, ss, pos, budget);
            (stop == |ss| || CountTokens(tc, ss[stop]) > budget)
            && (SentencePlan(tc, ss, pos, budget) == [] <==> stop == pos)
    decreases |ss| - pos
  {
    if pos < |ss| {
      var n := GreedyCount(tc, ss[pos..], budget);
      assert ss[pos..][0] == ss[pos];
      if n > 0 {
        StopCursorReason(tc, ss, pos + Max(1, n - 1), budget);
      }
    }
  }

  /** The last sentence of a window of two or more fits the budget alone, so a window starts there. */
  lemma OverlapSentenceOpensNextWindow(tc: TokenCounter, ss: seq<string>, pos: nat, budget: int)
    requires pos < |ss| && GreedyCount(tc, ss[pos..], budget) >= 2
    ensures var next := pos + GreedyCount(tc, ss[pos..], budget) - 1;
            var rest := SentencePlan(tc, ss, next, budget);
            rest != [] && rest[0].start == next
  {
    var n := GreedyCount(tc, ss[pos..], budget);
    var next := pos + n - 1;
    GreedyPrefixFits(tc, ss[pos..], budget);
    assert ss[pos..][..n][n - 1] == ss[next];
    SumTokensBoundsPart(tc, ss[pos..][..n], n - 1);
    assert ss[next..][0] == ss[next];
  }

  /** The window ends at or before `stop`. */
  predicate EndsBy(w: Window, stop: nat) {
    w.start + w.count <= stop
  }

  /** The last window of a non-empty plan. */
  function Last(plan: seq<Window>): Window
    requires plan != []
  {
    plan[|plan| - 1]
  }

  /**
   * No window reaches past the stopping point, and the last window is the
   * single sentence just before it.
   */
  lemma {:induction false} SentencePlanEndsAtStop(tc: TokenCounter, ss: seq<string>, pos: nat, budget: int)
    requires pos <= |ss|
    ensures forall k :: 0 <= k < |SentencePlan(tc, ss, pos, budget)| ==>
              EndsBy(SentencePlan(tc, ss, pos, budget)[k], StopCursor(tc, ss, pos, budget))
    ensures SentencePlan(tc, ss, pos, budget) != [] ==>
              Last(SentencePlan(tc, ss, pos, budget)) == Window(StopCursor(tc, ss, pos, budget) - 1, 1)
    decreases |ss| - pos
  {
    var plan, stop := SentencePlan(tc, ss, pos, budget), StopCursor(tc, ss, pos, budget);
    if plan != [] {
      var n := GreedyCount(tc, ss[pos..], budget);
      assert n > 0;
      var next := pos + Max(1, n - 1);
      var rest := SentencePlan(tc, ss, next, budget);
      assert plan == [Window(pos, n)] + rest;
      assert stop == StopCursor(tc, ss, next, budget);
      SentencePlanEndsAtStop(tc, ss, next, budget);
      FirstWindowEndsAtStop(tc, ss, pos, budget);
      if rest != [] {
        assert Last(plan) == Last(rest);
      }
    }
  }

  /** The first window ends no later than the stopping point, and is the last only when it is a single sentence. */
  lemma FirstWindowEndsAtStop(tc: TokenCounter, ss: seq<string>, pos: nat, budget: int)
    requires pos < |ss| && GreedyCount(tc, ss[pos..], budget) > 0
    ensures var n := GreedyCount(tc, ss[pos..], budget);
            var next := pos + Max(1, n - 1);
            pos + n <= StopCursor(tc, ss, next, budget)
            && (SentencePlan(tc, ss, next, budget) == [] ==> n == 1 && next == StopCursor(tc, ss, next, budget))
  {
    var n := GreedyCount(tc, ss[pos..], budget);
    var next := pos + Max(1, n - 1);
    StopCursorReason(tc, ss, next, budget);
    if n >= 2 {
      OverlapSentenceOpensNextWindow(tc, ss, pos, budget);
    }
  }

  /** Every sentence before the stopping point lies in some window: no gaps. */
  lemma {:induction false} SentencePlanCoversBeforeStop(tc: TokenCounter, ss: seq<string>, pos: nat, budget: int)
    requires pos <= |ss|
    ensures forall i: nat :: pos <= i < StopCursor(tc, ss, pos, budget) ==> Covered(SentencePlan(tc, ss, pos, budget), i)
    decreases |ss| - pos
  {
    var plan, stop := SentencePlan(tc, ss, pos, budget), StopCursor(tc, ss, pos, budget);
    if plan != [] {
      var n := GreedyCount(tc, ss[pos..], budget);
      var next := pos + Max(1, n - 1);
      var rest := SentencePlan(tc, ss, next, budget);
      SentencePlanCoversBeforeStop(tc, ss, next, budget);
      assert stop == StopCursor(tc, ss, next, budget);
      assert plan == [Window(pos, n)] + rest;
      forall i: nat | pos <= i < stop ensures Covered(plan, i) {
        if i >= pos + n {
          assert Covered(rest, i);
          var k :| 0 <= k < |rest| && rest[k].start <= i < rest[k].start + rest[k].count;
          assert plan[k + 1] == rest[k];
        } else {
          assert plan[0].start <= i < plan[0].start + plan[0].count;
        }
      }
    }
  }

  /**
   * Where `chunk_text` stops and what it covers. It stops at the end of the
   * list or at a sentence that alone exceeds the budget; every sentence
   * before that point lies in some window; no window reaches past it, so the
   * oversized sentence and everything after it are in no chunk; and the last
   * window is the single sentence just before the stopping point.
   */
  lemma SentencePlanCoverage(tc: TokenCounter, ss: seq<string>, budget: int)
    ensures var plan, stop := SentencePlan(tc, ss, 0, budget), StopCursor(tc, ss, 0, budget);
            (stop == |ss| || CountTokens(tc, ss[stop]) > budget)
            && (forall i :: 0 <= i < stop ==> Covered(plan, i))
            && (forall k :: 0 <= k < |plan| ==> plan[k].start + plan[k].count <= stop)
            && (plan != [] ==> plan[|plan| - 1] == Window(stop - 1, 1))
            && (plan == [] <==> stop == 0)
  {
    StopCursorReason(tc, ss, 0, budget);
    SentencePlanEndsAtStop(tc, ss, 0, budget);
    SentencePlanCoversBeforeStop(tc, ss, 0, budget);
  }

  /**
   * The overlap shape at the end of the list: a window of two or more
   * sentences is never the last one, and when it reaches the last sentence
   * it is followed by one more chunk holding only that sentence.
   */
  lemma PairAtEndIsFollowedBySingleton(tc: TokenCounter, ss: seq<string>, budget: int, k: nat)
    requires k < |SentencePlan(tc, ss, 0, budget)|
    requires SentencePlan(tc, ss, 0, budget)[k].count >= 2
    ensures k + 1 < |SentencePlan(tc, ss, 0, budget)|
    ensures var w := SentencePlan(tc, ss, 0, budget)[k];
            w.start + w.count == |ss| ==> SentencePlan(tc, ss, 0, budget)[k + 1] == Window(|ss| - 1, 1)
  {
    var plan := SentencePlan(tc, ss, 0, budget);
    SentencePlanEndsAtStop(tc, ss, 0, budget);
    SentencePlanAdvance(tc, ss, 0, budget);
    assert EndsBy(plan[k], StopCursor(tc, ss, 0, budget));
    if k + 1 < |plan| {
      assert StepsAt(plan, k);
      assert EndsBy(plan[k + 1], StopCursor(tc, ss, 0, budget));
    }
  }

  /**
   * Nothing is chunked when the first sentence alone exceeds the budget; in
   * particular when max_tokens <= overlap_tokens and every sentence costs at
   * least one token.
   */
  lemma NoChunksWhenFirstSentenceOversized(tc: TokenCounter, ss: seq<string>, budget: int)
    requires ss != [] && CountTokens(tc, ss[0]) > budget
    ensures SentencePlan(tc, ss, 0, budget) == []
    ensures StopCursor(tc, ss, 0, budget) == 0
  {
    assert ss[0..][0] == ss[0];
  }

  /**
   * When max_tokens <= overlap_tokens and every sentence costs at least one
   * token, no sentence fits and `chunk_text` returns no chunk.
   */
  lemma NoChunksWhenBudgetNotPositive(tc: TokenCounter, ss: seq<string>, budget: int)
    requires budget <= 0 && forall k :: 0 <= k < |ss| ==> CountTokens(tc, ss[k]) >= 1
    ensures PlanChunks(tc, ss, 0, budget) == []
  {
    if ss != [] {
      assert ss[0..][0] == ss[0];
    }
  }

  /** Empty or whitespace-only text has no sentence, so `chunk_text` returns no chunk. */
  lemma BlankTextHasNoChunks(tc: TokenCounter, text: string, budget: int)
    requires AllSpace(text)
    ensures PlanChunks(tc, SplitIntoSentences(text), 0, budget) == []
  {
    BlankTextHasNoPieces(text);
  }

  /** A chunk of non-empty sentences is never empty. */
  lemma {:induction false} PlanChunksNonEmpty(tc: TokenCounter, ss: seq<string>, pos: nat, budget: int)
    requires pos <= |ss| && forall k :: 0 <= k < |ss| ==> ss[k] != ""
    ensures forall k :: 0 <= k < |PlanChunks(tc, ss, pos, budget)| ==> PlanChunks(tc, ss, pos, budget)[k] != ""
    decreases |ss| - pos
  {
    if pos < |ss| {
      var n := GreedyCount(tc, ss[pos..], budget);
      if n > 0 {
        var w := ss[pos..pos + n];
        assert forall i :: 0 <= i < |w| ==> w[i] == ss[pos + i];
        JoinOfNonEmptyParts(SentenceSeparator, w);
        PlanChunksNonEmpty(tc, ss, pos + Max(1, n - 1), budget);
      }
    }
  }

  /**
   * What `chunk_text` returns: the windows of `SentencePlan` over the
   * sentences of the text, each joined with single spaces; at most one chunk
   * per sentence, and no chunk is empty.
   */
  lemma ChunkTextChunks(tc: TokenCounter, text: string, budget: int)
    ensures var ss := SplitIntoSentences(text);
            var chunks := PlanChunks(tc, ss, 0, budget);
            chunks == RenderWindows(SentenceSeparator, ss, SentencePlan(tc, ss, 0, budget))
            && |chunks| <= |ss|
            && forall k :: 0 <= k < |chunks| ==> chunks[k] != ""
  {
    var ss := SplitIntoSentences(text);
    PlanChunksRenderPlan(tc, ss, 0, budget);
    PlanChunksNonEmpty(tc, ss, 0, budget);
  }

  /**
   * The loop of `chunk_text` over the sentence list: the chunks are
   * `PlanChunks` of the sentences with the budget max_tokens - overlap_tokens.
   */
  method ChunkSentences(tc: TokenCounter, sentences: seq<string>, maxTokens: int, overlapTokens: int)
    returns (chunks: seq<string>)
    requires forall k :: 0 <= k < |sentences| ==> sentences[k] != ""
    ensures chunks == PlanChunks(tc, sentences, 0, maxTokens - overlapTokens)
  {
    var budget := maxTokens - overlapTokens;
    chunks := [];
    var currentPos: nat := 0;
    while currentPos < |sentences|
      invariant currentPos <= |sentences|
      invariant chunks + PlanChunks(tc, sentences, currentPos, budget) == PlanChunks(tc, sentences, 0, budget)
      decreases |sentences| - currentPos
    {
      var chunk, sentencesUsed := CreateChunkWithOverlap(tc, sentences[currentPos..], maxTokens, overlapTokens);
      ChunkTextTurn(tc, sentences, budget, chunks, currentPos, chunk, sentencesUsed);
      if chunk == "" {
        break;
      }
      chunks := chunks + [chunk];
      currentPos := currentPos + Max(1, sentencesUsed - 1);
    }
  }

  /**
   * `chunk_text`: the chunks are `PlanChunks` of the sentences of the text
   * with the budget max_tokens - overlap_tokens (see `ChunkTextChunks`).
   */
  method ChunkText(tc: TokenCounter, text: string, maxTokens: int, overlapTokens: int := DefaultOverlapTokens)
    returns (chunks: seq<string>)
    ensures chunks == PlanChunks(tc, SplitIntoSentences(text), 0, maxTokens - overlapTokens)
  {
    var sentences := SplitIntoSentences(text);
    chunks := ChunkSentences(tc, sentences, maxTokens, overlapTokens);
  }

  /**
   * The module-level `chunk_text(text, max_tokens=1000, overlap_tokens=100,
   * model="gpt-3.5-turbo")`: `chunk_text` of a fresh TokenCounter for the model.
   */
  method ChunkTextFor(reg: Registry, text: string, maxTokens: int := DefaultMaxTokens,
                      overlapTokens: int := DefaultOverlapTokens, model: string := DefaultModel)
    returns (chunks: seq<string>)
    requires reg.Valid()
    ensures chunks == PlanChunks(NewTokenCounter(reg, model), SplitIntoSentences(text), 0, maxTokens - overlapTokens)
  {
    var counter := NewTokenCounter(reg, model);
    chunks := ChunkText(counter, text, maxTokens, overlapTokens);
  }

  // ---------------------------------------------------------------------
  // A corrected chunk_text
  // ---------------------------------------------------------------------

  /**
   * The windows of a `chunk_text` that does not drop text: where no sentence
   * fits at the cursor, the oversized sentence becomes a chunk of its own and
   * the cursor moves past it; otherwise the turn is the one of `SentencePlan`.
   */
  function CompletePlan(tc: TokenCounter, ss: seq<string>, pos: nat, budget: int): (plan: seq<Window>)
    requires pos <= |ss|
    ensures forall k :: 0 <= k < |plan| ==>
              pos <= plan[k].start && 1 <= plan[k].count && plan[k].start + plan[k].count <= |ss|
    decreases |ss| - pos
  {
    if pos == |ss| then []
    else
      var n := GreedyCount(tc, ss[pos..], budget);
      [Window(pos, Max(1, n))] + CompletePlan(tc, ss, pos + Max(1, n - 1), budget)
  }

  /**
   * The corrected plan continues the plan as written: it has the same windows
   * up to the stopping point of `chunk_text`, and goes on from there.
   */
  lemma {:induction false} CompletePlanExtendsSentencePlan(tc: TokenCounter, ss: seq<string>, pos: nat, budget: int)
    requires pos <= |ss|
    ensures CompletePlan(tc, ss, pos, budget)
            == SentencePlan(tc, ss, pos, budget) + CompletePlan(tc, ss, StopCursor(tc, ss, pos, budget), budget)
    decreases |ss| - pos
  {
    if pos < |ss| {
      var n := GreedyCount(tc, ss[pos..], budget);
      if n > 0 {
        var next := pos + Max(1, n - 1);
        CompletePlanExtendsSentencePlan(tc, ss, next, budget);
        assert SentencePlan(tc, ss, pos, budget) == [Window(pos, n)] + SentencePlan(tc, ss, next, budget);
      }
    }
  }

  /** Every sentence from the cursor on lies in some window of the corrected plan: nothing is dropped. */
  lemma {:induction false} CompletePlanCoverage(tc: TokenCounter, ss: seq<string>, pos: nat, budget: int)
    requires pos <= |ss|
    ensures forall i: nat :: pos <= i < |ss| ==> Covered(CompletePlan(tc, ss, pos, budget), i)
    decreases |ss| - pos
  {
    if pos < |ss| {
      var plan := CompletePlan(tc, ss, pos, budget);
      var n: int := GreedyCount(tc, ss[pos..], budget);
      var next := pos + Max(1, n - 1);
      var rest := CompletePlan(tc, ss, next, budget);
      CompletePlanCoverage(tc, ss, next, budget);
      assert plan == [Window(pos, Max(1, n))] + rest;
      forall i: nat | pos <= i < |ss| ensures Covered(plan, i) {
        if i < next {
          assert plan[0].start <= i < plan[0].start + plan[0].count;
        } else {
          assert Covered(rest, i);
          var k :| 0 <= k < |rest| && rest[k].start <= i < rest[k].start + rest[k].count;
          assert plan[k + 1] == rest[k];
        }
      }
    }
  }

  /** The window fits the budget, or it is a single sentence that alone exceeds it. */
  predicate FitsOrOversizedSingle(tc: TokenCounter, ss: seq<string>, w: Window, budget: int) {
    WindowFits(tc, ss, w, budget)
    || (w.count == 1 && w.start < |ss| && CountTokens(tc, ss[w.start]) > budget)
  }

  /** Every corrected window fits the budget, except an oversized sentence standing alone. */
  lemma {:induction false} CompletePlanWithinBudget(tc: TokenCounter, ss: seq<string>, pos: nat, budget: int)
    requires pos <= |ss|
    ensures forall k :: 0 <= k < |CompletePlan(tc, ss, pos, budget)| ==>
              FitsOrOversizedSingle(tc, ss, CompletePlan(tc, ss, pos, budget)[k], budget)
    decreases |ss| - pos
  {
    if pos < |ss| {
      var plan := CompletePlan(tc, ss, pos, budget);
      var n: int := GreedyCount(tc, ss[pos..], budget);
      var next := pos + Max(1, n - 1);
      var rest := CompletePlan(tc, ss, next, budget);
      CompletePlanWithinBudget(tc, ss, next, budget);
      assert plan == [Window(pos, Max(1, n))] + rest;
      if n > 0 {
        GreedyPrefixFits(tc, ss[pos..], budget);
        assert ss[pos..][..n] == ss[pos..pos + n];
        assert WindowFits(tc, ss, plan[0], budget);
      } else {
        assert ss[pos..][0] == ss[pos];
      }
      assert forall k :: 1 <= k < |plan| ==> plan[k] == rest[k - 1];
    }
  }

  /** The chunk strings of the corrected loop from cursor `pos`, one turn at a time. */
  function CompleteChunks(tc: TokenCounter, ss: seq<string>, pos: nat, budget: int): seq<string>
    requires pos <= |ss|
    decreases |ss| - pos
  {
    if pos == |ss| then []
    else
      var n := GreedyCount(tc, ss[pos..], budget);
      [WindowText(SentenceSeparator, ss, Window(pos, Max(1, n)))] + CompleteChunks(tc, ss, pos + Max(1, n - 1), budget)
  }

  /** The corrected chunks are the rendered windows of the corrected plan. */
  lemma {:induction false} CompleteChunksRenderPlan(tc: TokenCounter, ss: seq<string>, pos: nat, budget: int)
    requires pos <= |ss|
    ensures CompleteChunks(tc, ss, pos, budget) == RenderWindows(SentenceSeparator, ss, CompletePlan(tc, ss, pos, budget))
    decreases |ss| - pos
  {
    if pos < |ss| {
      var n: int := GreedyCount(tc, ss[pos..], budget);
      var next := pos + Max(1, n - 1);
      CompleteChunksRenderPlan(tc, ss, next, budget);
      assert CompletePlan(tc, ss, pos, budget)[1..] == CompletePlan(tc, ss, next, budget);
    }
  }

  /**
   * One turn of the corrected loop: the chunk `create_chunk_with_overlap`
   * returns, or the sentence at the cursor alone when it takes none, is the
   * next corrected chunk, and the cursor moves on by max(1, used - 1).
   */
  lemma CompleteTurn(tc: TokenCounter, ss: seq<string>, budget: int, chunks: seq<string>,
                     pos: nat, chunk: string, used: nat)
    requires pos < |ss|
    requires used == GreedyCount(tc, ss[pos..], budget) && chunk == Join(SentenceSeparator, ss[pos..][..used])
    ensures (chunks + [if used == 0 then ss[pos] else chunk]) + CompleteChunks(tc, ss, pos + Max(1, used - 1), budget)
            == chunks + CompleteChunks(tc, ss, pos, budget)
  {
    var emitted := if used == 0 then ss[pos] else chunk;
    var later := CompleteChunks(tc, ss, pos + Max(1, used - 1), budget);
    assert ss[pos..pos + Max(1, used)] == ss[pos..][..Max(1, used)];
    assert CompleteChunks(tc, ss, pos, budget) == [emitted] + later;
    assert (chunks + [emitted]) + later == chunks + ([emitted] + later);
  }

  /**
   * The corrected loop of `chunk_text` over the sentence list: it emits an
   * oversized sentence as a chunk of its own instead of stopping, so its
   * chunks are the rendered windows of `CompletePlan` (`CompleteChunksRenderPlan`).
   */
  method ChunkSentencesComplete(tc: TokenCounter, sentences: seq<string>, maxTokens: int, overlapTokens: int)
    returns (chunks: seq<string>)
    ensures chunks == CompleteChunks(tc, sentences, 0, maxTokens - overlapTokens)
  {
    var budget := maxTokens - overlapTokens;
    chunks := [];
    var currentPos: nat := 0;
    while currentPos < |sentences|
      invariant currentPos <= |sentences|
      invariant chunks + CompleteChunks(tc, sentences, currentPos, budget) == CompleteChunks(tc, sentences, 0, budget)
      decreases |sentences| - currentPos
    {
      var chunk, sentencesUsed := CreateChunkWithOverlap(tc, sentences[currentPos..], maxTokens, overlapTokens);
      CompleteTurn(tc, sentences, budget, chunks, currentPos, chunk, sentencesUsed);
      if sentencesUsed == 0 {
        chunk := sentences[currentPos];
      }
      chunks := chunks + [chunk];
      currentPos := currentPos + Max(1, sentencesUsed as int - 1);
    }
  }

  /**
   * `chunk_text` with the corrected loop: every sentence of the text lies in
   * some chunk (`CompletePlanCoverage`).
   */
  method ChunkTextComplete(tc: TokenCounter, text: string, maxTokens: int, overlapTokens: int := DefaultOverlapTokens)
    returns (chunks: seq<string>)
    ensures chunks == CompleteChunks(tc, SplitIntoSentences(text), 0, maxTokens - overlapTokens)
  {
    var sentences := SplitIntoSentences(text);
    chunks := ChunkSentencesComplete(tc, sentences, maxTokens, overlapTokens);
  }
}
