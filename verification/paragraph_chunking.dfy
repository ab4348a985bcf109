/**
 * `TokenCounter.chunk_text_by_paragraphs` (backend/utils/chunker.py:135-174)
 * and the module-level `chunk_text_by_paragraphs` wrapper (chunker.py:228-242).
 *
 * The method fills a chunk greedily with whole paragraphs up to max_tokens,
 * then moves the cursor back by overlap_paragraphs. As written, the outer
 * loop ends only when every turn moves the cursor forward; `ParagraphLoopExits`
 * is that condition, and `ParagraphLoopExitsIff` proves it exact. For every
 * other input, including any non-blank text with the default overlap of one
 * paragraph, the loop runs forever.
 *
 * `ProgressingChunks` is the corrected loop: the cursor steps back for the
 * overlap but always moves forward by at least one paragraph, and a
 * paragraph that alone exceeds max_tokens becomes a chunk of its own. It
 * returns for every input, covers every paragraph when the overlap is zero
 * or more, and agrees with the method as written wherever that one returns
 * and every paragraph fits.
 */
module ParagraphChunking {

  import opened TokenCounting
  import opened TextSplit
  import opened SentenceChunking

  /** Default of `overlap_paragraphs`. */
  const DefaultOverlapParagraphs: int := 1

  /** What the paragraphs of a chunk are joined with. */
  const ParagraphSeparator: string := "\n\n"

  /** Every paragraph fits max_tokens on its own. */
  predicate AllFit(tc: TokenCounter, ps: seq<string>, maxTokens: int) {
    forall k :: 0 <= k < |ps| ==> CountTokens(tc, ps[k]) <= maxTokens
  }

  /**
   * When the outer loop of `chunk_text_by_paragraphs` ends: there is no
   * paragraph, or the overlap is negative, or it is zero and every paragraph
   * fits alone.
   */
  predicate ParagraphLoopExits(tc: TokenCounter, ps: seq<string>, maxTokens: int, overlap: int) {
    ps == [] || overlap < 0 || (overlap == 0 && AllFit(tc, ps, maxTokens))
  }

  /** Where one turn of the outer loop leaves the cursor: max(0, pos + taken - overlap). */
  function NextCursor(tc: TokenCounter, ps: seq<string>, pos: nat, maxTokens: int, overlap: int): nat
    requires pos < |ps|
  {
    var c := pos + GreedyCount(tc, ps[pos..], maxTokens) - overlap;
    if c < 0 then 0 else c
  }

  /** The cursor after the given number of turns; it stays put once the loop has ended. */
  function CursorAfter(tc: TokenCounter, ps: seq<string>, maxTokens: int, overlap: int, turns: nat): nat {
    if turns == 0 then 0
    else
      var c := CursorAfter(tc, ps, maxTokens, overlap, turns - 1);
      if c < |ps| then NextCursor(tc, ps, c, maxTokens, overlap) else c
  }

  /** Under the exit condition every turn moves the cursor forward. */
  lemma CursorAdvances(tc: TokenCounter, ps: seq<string>, pos: nat, maxTokens: int, overlap: int)
    requires pos < |ps| && ParagraphLoopExits(tc, ps, maxTokens, overlap)
    ensures NextCursor(tc, ps, pos, maxTokens, overlap) > pos
  {
    assert ps[pos..][0] == ps[pos];
  }

  /** With an overlap of one paragraph or more, the cursor never reaches the end of a non-empty list. */
  lemma {:induction false} ParagraphLoopNeverExits(tc: TokenCounter, ps: seq<string>, maxTokens: int,
                                                   overlap: int, turns: nat)
    requires ps != [] && overlap >= 1
    ensures CursorAfter(tc, ps, maxTokens, overlap, turns) < |ps|
  {
    if turns > 0 {
      ParagraphLoopNeverExits(tc, ps, maxTokens, overlap, turns - 1);
    }
  }

  /** With no overlap, the cursor never passes a paragraph that alone exceeds max_tokens. */
  lemma {:induction false} OversizedParagraphStallsLoop(tc: TokenCounter, ps: seq<string>, maxTokens: int,
                                                        m: nat, turns: nat)
    requires m < |ps| && CountTokens(tc, ps[m]) > maxTokens
    ensures CursorAfter(tc, ps, maxTokens, 0, turns) <= m
  {
    if turns > 0 {
      OversizedParagraphStallsLoop(tc, ps, maxTokens, m, turns - 1);
      var c := CursorAfter(tc, ps, maxTokens, 0, turns - 1);
      assert ps[c..][m - c] == ps[m];
      GreedyStopsBeforeOversized(tc, ps[c..], maxTokens, m - c);
    }
  }

  /** Under the exit condition the cursor gains at least one paragraph a turn until it reaches the end. */
  lemma {:induction false} CursorReachesEnd(tc: TokenCounter, ps: seq<string>, maxTokens: int,
                                            overlap: int, turns: nat)
    requires ParagraphLoopExits(tc, ps, maxTokens, overlap)
    ensures CursorAfter(tc, ps, maxTokens, overlap, turns) >= turns
            || CursorAfter(tc, ps, maxTokens, overlap, turns) >= |ps|
  {
    if turns > 0 {
      CursorReachesEnd(tc, ps, maxTokens, overlap, turns - 1);
      var c := CursorAfter(tc, ps, maxTokens, overlap, turns - 1);
      if c < |ps| {
        CursorAdvances(tc, ps, c, maxTokens, overlap);
      }
    }
  }

  /**
   * A paragraph that alone exceeds max_tokens at the cursor adds nothing: the
   * inner loop takes no paragraph, and with an overlap of zero or more the
   * cursor does not move forward.
   */
  lemma OversizedParagraphAddsNothing(tc: TokenCounter, ps: seq<string>, pos: nat, maxTokens: int, overlap: int)
    requires pos < |ps| && CountTokens(tc, ps[pos]) > maxTokens
    ensures GreedyCount(tc, ps[pos..], maxTokens) == 0
    ensures overlap >= 0 ==> NextCursor(tc, ps, pos, maxTokens, overlap) <= pos
  {
    assert ps[pos..][0] == ps[pos];
  }

  /** The outer loop ends (the cursor reaches the end after some number of turns) exactly under the exit condition. */
  lemma ParagraphLoopExitsIff(tc: TokenCounter, ps: seq<string>, maxTokens: int, overlap: int)
    ensures ParagraphLoopExits(tc, ps, maxTokens, overlap)
            <==> exists turns: nat :: CursorAfter(tc, ps, maxTokens, overlap, turns) >= |ps|
  {
    if ParagraphLoopExits(tc, ps, maxTokens, overlap) {
      CursorReachesEnd(tc, ps, maxTokens, overlap, |ps|);
    } else if overlap >= 1 {
      forall turns: nat ensures CursorAfter(tc, ps, maxTokens, overlap, turns) < |ps| {
        ParagraphLoopNeverExits(tc, ps, maxTokens, overlap, turns);
      }
    } else {
      var m :| 0 <= m < |ps| && CountTokens(tc, ps[m]) > maxTokens;
      forall turns: nat ensures CursorAfter(tc, ps, maxTokens, overlap, turns) < |ps| {
        OversizedParagraphStallsLoop(tc, ps, maxTokens, m, turns);
      }
    }
  }

  /**
   * With the default overlap of one paragraph, `chunk_text_by_paragraphs`
   * never returns on a text that is not blank: the cursor never reaches the
   * end of the paragraph list.
   */
  lemma DefaultOverlapNeverReturns(tc: TokenCounter, text: string, maxTokens: int, turns: nat)
    requires !AllSpace(text)
    ensures CursorAfter(tc, SplitIntoParagraphs(text), maxTokens, DefaultOverlapParagraphs, turns)
            < |SplitIntoParagraphs(text)|
  {
    ParagraphsEmptyIffBlank(text);
    ParagraphLoopNeverExits(tc, SplitIntoParagraphs(text), maxTokens, DefaultOverlapParagraphs, turns);
  }

  // ---------------------------------------------------------------------
  // The loop as written
  // ---------------------------------------------------------------------

  /**
   * The chunks the outer loop emits from cursor `pos`: each turn takes the
   * greedy run of paragraphs within max_tokens, emits them joined by a blank
   * line when the run is not empty, and moves the cursor to `NextCursor`.
   */
  function ParagraphChunks(tc: TokenCounter, ps: seq<string>, pos: nat, maxTokens: int, overlap: int): seq<string>
    requires ParagraphLoopExits(tc, ps, maxTokens, overlap)
    decreases |ps| - pos
  {
    if pos >= |ps| then []
    else
      var n := GreedyCount(tc, ps[pos..], maxTokens);
      CursorAdvances(tc, ps, pos, maxTokens, overlap);
      var rest := ParagraphChunks(tc, ps, NextCursor(tc, ps, pos, maxTokens, overlap), maxTokens, overlap);
      if n > 0 then [Join(ParagraphSeparator, ps[pos..pos + n])] + rest else rest
  }

  /**
   * The inner loop of `chunk_text_by_paragraphs`: from `start`, takes
   * paragraphs while the running token sum stays within max_tokens; returns
   * them and the cursor just past them.
   */
  method FillChunk(tc: TokenCounter, paragraphs: seq<string>, start: nat, maxTokens: int)
    returns (chunkParagraphs: seq<string>, currentPos: nat)
    requires start <= |paragraphs|
    ensures currentPos == start + GreedyCount(tc, paragraphs[start..], maxTokens)
    ensures chunkParagraphs == paragraphs[start..currentPos]
    ensures chunkParagraphs != [] ==> SumTokens(tc, chunkParagraphs) <= maxTokens
  {
    chunkParagraphs := [];
    var currentTokens: nat := 0;
    currentPos := start;
    while currentPos < |paragraphs|
      invariant start <= currentPos <= |paragraphs|
      invariant chunkParagraphs == paragraphs[start..currentPos]
      invariant currentTokens == SumTokens(tc, chunkParagraphs)
      invariant currentPos - start + GreedyCount(tc, paragraphs[currentPos..], maxTokens - currentTokens)
                == GreedyCount(tc, paragraphs[start..], maxTokens)
    {
      var paragraph := paragraphs[currentPos];
      var paragraphTokens := CountTokens(tc, paragraph);
      if currentTokens + paragraphTokens > maxTokens {
        break;
      }
      assert paragraphs[currentPos..][1..] == paragraphs[currentPos + 1..];
      SumTokensAppend(tc, chunkParagraphs, paragraph);
      chunkParagraphs := chunkParagraphs + [paragraph];
      currentTokens := currentTokens + paragraphTokens;
      currentPos := currentPos + 1;
    }
    GreedyPrefixFits(tc, paragraphs[start..], maxTokens);
    assert paragraphs[start..][..currentPos - start] == chunkParagraphs;
  }

  /**
   * One turn of the outer loop, given the chunks so far and the paragraphs
   * the inner loop took at the cursor: they make the next planned chunk when
   * there are any, and the plan goes on from `NextCursor`.
   */
  lemma ParagraphTurn(tc: TokenCounter, ps: seq<string>, maxTokens: int, overlap: int, chunks: seq<string>,
                      pos: nat, taken: seq<string>)
    requires ParagraphLoopExits(tc, ps, maxTokens, overlap) && pos < |ps|
    requires taken == ps[pos..pos + GreedyCount(tc, ps[pos..], maxTokens)]
    ensures taken == [] ==>
              chunks + ParagraphChunks(tc, ps, NextCursor(tc, ps, pos, maxTokens, overlap), maxTokens, overlap)
              == chunks + ParagraphChunks(tc, ps, pos, maxTokens, overlap)
    ensures taken != [] ==>
              (chunks + [Join(ParagraphSeparator, taken)])
              + ParagraphChunks(tc, ps, NextCursor(tc, ps, pos, maxTokens, overlap), maxTokens, overlap)
              == chunks + ParagraphChunks(tc, ps, pos, maxTokens, overlap)
  {
    var later := ParagraphChunks(tc, ps, NextCursor(tc, ps, pos, maxTokens, overlap), maxTokens, overlap);
    if taken != [] {
      assert ParagraphChunks(tc, ps, pos, maxTokens, overlap) == [Join(ParagraphSeparator, taken)] + later;
      assert (chunks + [Join(ParagraphSeparator, taken)]) + later == chunks + ([Join(ParagraphSeparator, taken)] + later);
    }
  }

  /**
   * The outer loop of `chunk_text_by_paragraphs` over the paragraph list, as
   * written; it returns only under `ParagraphLoopExits`.
   */
  method ChunkParagraphs(tc: TokenCounter, paragraphs: seq<string>, maxTokens: int, overlapParagraphs: int)
    returns (chunks: seq<string>)
    requires ParagraphLoopExits(tc, paragraphs, maxTokens, overlapParagraphs)
    ensures chunks == ParagraphChunks(tc, paragraphs, 0, maxTokens, overlapParagraphs)
  {
    chunks := [];
    var currentPos: nat := 0;
    while currentPos < |paragraphs|
      invariant chunks + ParagraphChunks(tc, paragraphs, currentPos, maxTokens, overlapParagraphs)
                == ParagraphChunks(tc, paragraphs, 0, maxTokens, overlapParagraphs)
      decreases |paragraphs| - currentPos
    {
      ghost var start := currentPos;
      var chunkParagraphs;
      chunkParagraphs, currentPos := FillChunk(tc, paragraphs, currentPos, maxTokens);
      ParagraphTurn(tc, paragraphs, maxTokens, overlapParagraphs, chunks, start, chunkParagraphs);
      if chunkParagraphs != [] {
        chunks := chunks + [Join(ParagraphSeparator, chunkParagraphs)];
      }
      currentPos := Max(0, currentPos - overlapParagraphs);
      assert currentPos == NextCursor(tc, paragraphs, start, maxTokens, overlapParagraphs);
      CursorAdvances(tc, paragraphs, start, maxTokens, overlapParagraphs);
    }
  }

  /**
   * `chunk_text_by_paragraphs`: splits the text into stripped, non-empty
   * paragraphs at blank lines and chunks them; it returns only when the
   * outer loop ends (see `ParagraphLoopExitsIff`).
   */
  method ChunkTextByParagraphs(tc: TokenCounter, text: string, maxTokens: int,
                               overlapParagraphs: int := DefaultOverlapParagraphs)
    returns (chunks: seq<string>)
    requires ParagraphLoopExits(tc, SplitIntoParagraphs(text), maxTokens, overlapParagraphs)
    ensures chunks == ParagraphChunks(tc, SplitIntoParagraphs(text), 0, maxTokens, overlapParagraphs)
  {
    var paragraphs := SplitIntoParagraphs(text);
    chunks := ChunkParagraphs(tc, paragraphs, maxTokens, overlapParagraphs);
  }

  // ---------------------------------------------------------------------
  // The corrected loop
  // ---------------------------------------------------------------------

  /** The corrected cursor step: back by the overlap, but at least one paragraph forward. */
  function ProgressCursor(tc: TokenCounter, ps: seq<string>, pos: nat, maxTokens: int, overlap: int): (c: nat)
    requires pos < |ps|
    ensures c > pos
  {
    Max(pos + 1, pos + GreedyCount(tc, ps[pos..], maxTokens) - overlap)
  }

  /**
   * The windows of paragraphs the corrected loop emits from cursor `pos`: the
   * greedy run at the cursor, or the paragraph at the cursor alone when it
   * exceeds max_tokens by itself.
   */
  function ProgressingPlan(tc: TokenCounter, ps: seq<string>, pos: nat, maxTokens: int, overlap: int)
    : (plan: seq<Window>)
    ensures WindowsWithin(plan, |ps|)
    decreases |ps| - pos
  {
    if pos >= |ps| then []
    else
      var n := GreedyCount(tc, ps[pos..], maxTokens);
      [Window(pos, Max(1, n))] + ProgressingPlan(tc, ps, ProgressCursor(tc, ps, pos, maxTokens, overlap), maxTokens, overlap)
  }

  /** The chunks of the corrected loop from cursor `pos`. */
  function ProgressingChunks(tc: TokenCounter, ps: seq<string>, pos: nat, maxTokens: int, overlap: int)
    : seq<string>
    decreases |ps| - pos
  {
    if pos >= |ps| then []
    else
      var n := GreedyCount(tc, ps[pos..], maxTokens);
      [Join(ParagraphSeparator, ps[pos..pos + Max(1, n)])]
      + ProgressingChunks(tc, ps, ProgressCursor(tc, ps, pos, maxTokens, overlap), maxTokens, overlap)
  }

  /**
   * Wherever the loop as written returns and every paragraph fits max_tokens
   * alone, the corrected loop returns the same chunks. With an overlap of zero
   * or more these are all the inputs on which the source returns.
   */
  lemma {:induction false} ProgressingAgreesWhereSourceReturns(tc: TokenCounter, ps: seq<string>, pos: nat,
                                                               maxTokens: int, overlap: int)
    requires ParagraphLoopExits(tc, ps, maxTokens, overlap) && AllFit(tc, ps, maxTokens)
    ensures ProgressingChunks(tc, ps, pos, maxTokens, overlap) == ParagraphChunks(tc, ps, pos, maxTokens, overlap)
    decreases |ps| - pos
  {
    if pos < |ps| {
      var n := GreedyCount(tc, ps[pos..], maxTokens);
      var next := NextCursor(tc, ps, pos, maxTokens, overlap);
      CursorAdvances(tc, ps, pos, maxTokens, overlap);
      assert ps[pos..][0] == ps[pos];
      assert n > 0;
      assert ProgressCursor(tc, ps, pos, maxTokens, overlap) == next;
      ProgressingAgreesWhereSourceReturns(tc, ps, next, maxTokens, overlap);
      var rest := ParagraphChunks(tc, ps, next, maxTokens, overlap);
      assert ParagraphChunks(tc, ps, pos, maxTokens, overlap) == [Join(ParagraphSeparator, ps[pos..pos + n])] + rest;
    }
  }

  /** The corrected chunks are the windows of the plan, joined by blank lines. */
  lemma {:induction false} ProgressingChunksRenderPlan(tc: TokenCounter, ps: seq<string>, pos: nat,
                                                       maxTokens: int, overlap: int)
    ensures ProgressingChunks(tc, ps, pos, maxTokens, overlap)
            == RenderWindows(ParagraphSeparator, ps, ProgressingPlan(tc, ps, pos, maxTokens, overlap))
    decreases |ps| - pos
  {
    if pos < |ps| {
      var next := ProgressCursor(tc, ps, pos, maxTokens, overlap);
      ProgressingChunksRenderPlan(tc, ps, next, maxTokens, overlap);
      var n := GreedyCount(tc, ps[pos..], maxTokens);
      var rest := ProgressingPlan(tc, ps, next, maxTokens, overlap);
      assert ([Window(pos, Max(1, n))] + rest)[1..] == rest;
    }
  }

  /**
   * Every window holds at least one paragraph and lies after `pos`; its
   * paragraphs sum to at most max_tokens, or it is a single paragraph that
   * alone exceeds max_tokens.
   */
  lemma {:induction false} ProgressingPlanWithinBudget(tc: TokenCounter, ps: seq<string>, pos: nat,
                                                       maxTokens: int, overlap: int)
    ensures forall k :: 0 <= k < |ProgressingPlan(tc, ps, pos, maxTokens, overlap)| ==>
              WithinAfter(tc, ps, ProgressingPlan(tc, ps, pos, maxTokens, overlap)[k], pos, maxTokens)
    decreases |ps| - pos
  {
    if pos < |ps| {
      var next := ProgressCursor(tc, ps, pos, maxTokens, overlap);
      var rest := ProgressingPlan(tc, ps, next, maxTokens, overlap);
      ProgressingPlanWithinBudget(tc, ps, next, maxTokens, overlap);
      assert forall k :: 0 <= k < |rest| ==> WithinAfter(tc, ps, rest[k], pos, maxTokens);
      var n := GreedyCount(tc, ps[pos..], maxTokens);
      if n > 0 {
        GreedyPrefixFits(tc, ps[pos..], maxTokens);
        assert ps[pos..][..n] == ps[pos..pos + n];
        assert WindowFits(tc, ps, Window(pos, n), maxTokens);
      } else {
        assert ps[pos..][0] == ps[pos];
      }
      assert WithinAfter(tc, ps, Window(pos, Max(1, n)), pos, maxTokens);
      assert ProgressingPlan(tc, ps, pos, maxTokens, overlap) == [Window(pos, Max(1, n))] + rest;
    }
  }

  /** A non-empty window that starts at or after `pos` and fits max_tokens, or is one oversized paragraph. */
  predicate WithinAfter(tc: TokenCounter, ps: seq<string>, w: Window, pos: nat, maxTokens: int) {
    pos <= w.start && 1 <= w.count && FitsOrOversizedSingle(tc, ps, w, maxTokens)
  }

  /** A non-empty window that starts at or after `pos` and fits max_tokens. */
  predicate FitsAfter(tc: TokenCounter, ps: seq<string>, w: Window, pos: nat, maxTokens: int) {
    pos <= w.start && 1 <= w.count && WindowFits(tc, ps, w, maxTokens)
  }

  /**
   * With an overlap of zero or more, every paragraph from `pos` on lies in
   * some chunk of the corrected loop: nothing is lost, an oversized paragraph
   * included.
   */
  lemma {:induction false} ProgressingPlanCoverage(tc: TokenCounter, ps: seq<string>, pos: nat,
                                                   maxTokens: int, overlap: int, i: nat)
    requires overlap >= 0 && pos <= i < |ps|
    ensures Covered(ProgressingPlan(tc, ps, pos, maxTokens, overlap), i)
    decreases |ps| - pos
  {
    var n := GreedyCount(tc, ps[pos..], maxTokens);
    var next := ProgressCursor(tc, ps, pos, maxTokens, overlap);
    var plan, rest := ProgressingPlan(tc, ps, pos, maxTokens, overlap), ProgressingPlan(tc, ps, next, maxTokens, overlap);
    assert plan == [Window(pos, Max(1, n))] + rest;
    if i < pos + Max(1, n) {
      assert plan[0].start <= i < plan[0].start + plan[0].count;
    } else {
      ProgressingPlanCoverage(tc, ps, next, maxTokens, overlap, i);
      var k :| 0 <= k < |rest| && rest[k].start <= i < rest[k].start + rest[k].count;
      assert plan[k + 1] == rest[k];
    }
  }

  /** The paragraphs of the windows, one window after another. */
  function Flatten(ps: seq<string>, plan: seq<Window>): seq<string>
    requires WindowsWithin(plan, |ps|)
  {
    if plan == [] then [] else ps[plan[0].start..plan[0].start + plan[0].count] + Flatten(ps, plan[1..])
  }

  /**
   * With no overlap the corrected chunks tile the paragraphs: read one after
   * another they give back every paragraph from `pos` on, each exactly once
   * and in order.
   */
  lemma {:induction false} NoOverlapTilesParagraphs(tc: TokenCounter, ps: seq<string>, pos: nat, maxTokens: int)
    requires pos <= |ps|
    ensures Flatten(ps, ProgressingPlan(tc, ps, pos, maxTokens, 0)) == ps[pos..]
    decreases |ps| - pos
  {
    if pos < |ps| {
      var n := Max(1, GreedyCount(tc, ps[pos..], maxTokens));
      var next := ProgressCursor(tc, ps, pos, maxTokens, 0);
      assert next == pos + n;
      NoOverlapTilesParagraphs(tc, ps, next, maxTokens);
      var rest := ProgressingPlan(tc, ps, next, maxTokens, 0);
      var plan := [Window(pos, n)] + rest;
      assert plan[1..] == rest;
      assert ps[pos..pos + n] + ps[pos + n..] == ps[pos..];
    } else {
      assert ps[pos..] == [];
    }
  }

  /**
   * Where the loop as written returns with no overlap (every paragraph fits
   * alone): its chunks are windows of paragraphs joined by blank lines; read
   * one after another the windows give back every paragraph exactly once and
   * in order; and each window's paragraphs sum to at most max_tokens.
   */
  lemma NoOverlapPartition(tc: TokenCounter, ps: seq<string>, maxTokens: int)
    requires AllFit(tc, ps, maxTokens)
    ensures ParagraphChunks(tc, ps, 0, maxTokens, 0)
            == RenderWindows(ParagraphSeparator, ps, ProgressingPlan(tc, ps, 0, maxTokens, 0))
    ensures Flatten(ps, ProgressingPlan(tc, ps, 0, maxTokens, 0)) == ps
    ensures forall k :: 0 <= k < |ProgressingPlan(tc, ps, 0, maxTokens, 0)| ==>
              FitsAfter(tc, ps, ProgressingPlan(tc, ps, 0, maxTokens, 0)[k], 0, maxTokens)
  {
    ProgressingAgreesWhereSourceReturns(tc, ps, 0, maxTokens, 0);
    ProgressingChunksRenderPlan(tc, ps, 0, maxTokens, 0);
    NoOverlapTilesParagraphs(tc, ps, 0, maxTokens);
    ProgressingPlanWithinBudget(tc, ps, 0, maxTokens, 0);
    var plan := ProgressingPlan(tc, ps, 0, maxTokens, 0);
    forall k | 0 <= k < |plan| ensures FitsAfter(tc, ps, plan[k], 0, maxTokens) {
      assert WithinAfter(tc, ps, plan[k], 0, maxTokens);
    }
  }

  /**
   * One turn of the corrected outer loop: the paragraphs the inner loop took,
   * joined by a blank line, or the paragraph at the cursor alone when it took
   * none, make the next corrected chunk, and the plan goes on from
   * `ProgressCursor`.
   */
  lemma ProgressingTurn(tc: TokenCounter, ps: seq<string>, maxTokens: int, overlap: int, chunks: seq<string>,
                        pos: nat, taken: seq<string>)
    requires pos < |ps| && taken == ps[pos..pos + GreedyCount(tc, ps[pos..], maxTokens)]
    ensures (chunks + [if taken == [] then ps[pos] else Join(ParagraphSeparator, taken)])
            + ProgressingChunks(tc, ps, ProgressCursor(tc, ps, pos, maxTokens, overlap), maxTokens, overlap)
            == chunks + ProgressingChunks(tc, ps, pos, maxTokens, overlap)
  {
    var emitted := if taken == [] then ps[pos] else Join(ParagraphSeparator, taken);
    var later := ProgressingChunks(tc, ps, ProgressCursor(tc, ps, pos, maxTokens, overlap), maxTokens, overlap);
    if taken == [] {
      assert ps[pos..pos + 1] == [ps[pos]];
    }
    assert ProgressingChunks(tc, ps, pos, maxTokens, overlap) == [emitted] + later;
    assert (chunks + [emitted]) + later == chunks + ([emitted] + later);
  }

  /**
   * The corrected outer loop over the paragraph list: the same turns as
   * `ChunkParagraphs`, but a paragraph that alone exceeds max_tokens becomes
   * a chunk of its own, and the cursor always moves forward, so it returns
   * for every input.
   */
  method ChunkParagraphsProgressing(tc: TokenCounter, paragraphs: seq<string>, maxTokens: int,
                                    overlapParagraphs: int)
    returns (chunks: seq<string>)
    ensures chunks == ProgressingChunks(tc, paragraphs, 0, maxTokens, overlapParagraphs)
  {
    chunks := [];
    var currentPos: nat := 0;
    while currentPos < |paragraphs|
      invariant chunks + ProgressingChunks(tc, paragraphs, currentPos, maxTokens, overlapParagraphs)
                == ProgressingChunks(tc, paragraphs, 0, maxTokens, overlapParagraphs)
      decreases |paragraphs| - currentPos
    {
      var start := currentPos;
      var chunkParagraphs;
      chunkParagraphs, currentPos := FillChunk(tc, paragraphs, currentPos, maxTokens);
      ProgressingTurn(tc, paragraphs, maxTokens, overlapParagraphs, chunks, start, chunkParagraphs);
      if chunkParagraphs == [] {
        chunks := chunks + [paragraphs[start]];
      } else {
        chunks := chunks + [Join(ParagraphSeparator, chunkParagraphs)];
      }
      currentPos := Max(start + 1, currentPos - overlapParagraphs);
      assert currentPos == ProgressCursor(tc, paragraphs, start, maxTokens, overlapParagraphs);
    }
  }

  /**
   * The module-level `chunk_text_by_paragraphs(text, max_tokens,
   * overlap_paragraphs, model)`, with the corrected loop: the chunks of the
   * paragraphs of the text under the model's counter, the same as the method
   * as written wherever that one returns and every paragraph fits max_tokens.
   */
  method ChunkTextByParagraphsFor(reg: Registry, text: string, maxTokens: int := DefaultMaxTokens,
                                  overlapParagraphs: int := DefaultOverlapParagraphs, model: string := DefaultModel)
    returns (chunks: seq<string>)
    requires reg.Valid()
    ensures chunks == ProgressingChunks(NewTokenCounter(reg, model), SplitIntoParagraphs(text), 0,
                                        maxTokens, overlapParagraphs)
    ensures ParagraphLoopExits(NewTokenCounter(reg, model), SplitIntoParagraphs(text), maxTokens, overlapParagraphs)
            && AllFit(NewTokenCounter(reg, model), SplitIntoParagraphs(text), maxTokens)
            ==> chunks == ParagraphChunks(NewTokenCounter(reg, model), SplitIntoParagraphs(text), 0,
                                          maxTokens, overlapParagraphs)
  {
    var counter := NewTokenCounter(reg, model);
    var paragraphs := SplitIntoParagraphs(text);
    chunks := ChunkParagraphsProgressing(counter, paragraphs, maxTokens, overlapParagraphs);
    if ParagraphLoopExits(counter, paragraphs, maxTokens, overlapParagraphs) && AllFit(counter, paragraphs, maxTokens) {
      ProgressingAgreesWhereSourceReturns(counter, paragraphs, 0, maxTokens, overlapParagraphs);
    }
  }
}
