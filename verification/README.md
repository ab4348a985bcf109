# Token-budgeted text chunker

This project models the text chunker in `backend/utils/chunker.py`: the `TokenCounter` class and its module-level wrappers.

A `TokenCounter` is built for a model name. It uses the model's encoding and falls back to `cl100k_base` when the tokenizer library does not know the model. It provides:

- token counts for a string and for a list of chat messages;
- a regex sentence splitter;
- two chunkers that group sentences or paragraphs into chunks within a token budget, with overlap between neighbouring chunks.

The Dafny modules follow the source:

- `Wrappers`: the `Option` type.
- `TokenCounting` (`token_counting.dfy`): the encoding lookup with its fallback, `count_tokens`, `count_tokens_in_messages` and the module-level `count_tokens`.
- `TextSplit` (`text_split.dfy`): Python's `str.isspace` and `str.strip`, and `re.split` for the two patterns the class compiles, `[.!?]+["']?\s+` and `\n\s*\n`, followed by the strip-and-drop-empty comprehension.
  - `MatchEnd` writes out what Python's backtracking engine returns at one start position. `IsDelimiter` says declaratively which strings each pattern describes.
  - `SplitFrom` is the leftmost-first search loop. `IsSplitOf` is the declarative specification of the split, and `SplitIsUnique` shows that only one split meets it.
- `SentenceChunking` (`sentence_chunking.dfy`): `create_chunk_with_overlap`, `chunk_text` and its wrapper. `SentencePlan` describes the chunks as windows of consecutive sentences.
- `ParagraphChunking` (`paragraph_chunking.dfy`): `chunk_text_by_paragraphs` as written, its exact termination condition, a corrected loop that always terminates, and the wrapper.

Every token bound the code enforces is on the sum of the per-sentence or per-paragraph counts. A joined chunk is never counted again, so the bounds below are stated over those sums.

The tokenizer is a foreign library. An `Encoding` carries its encoder as a function value, and `Registry` stands for the library's two tables (model to encoding name, and name to encoding).

`TokenCounter` never changes after construction, so it is a datatype value and its methods are module-level members that take it as a parameter. The loops of the source are Dafny methods with loop invariants:

- the message sum;
- the greedy prefix of `create_chunk_with_overlap`;
- the cursor loop of `chunk_text`;
- the nested loops of `chunk_text_by_paragraphs`.

Each method is proved equal to a recursive specification function. The properties are lemmas about those functions.

Where the code does something the method descriptions do not promise, the model follows the code:

- **`chunk_text` drops text.** It stops at the first sentence that alone exceeds `max_tokens - overlap_tokens`. That sentence and every later one are in no chunk (`SentencePlanCoverage`). The method is described as splitting the text into chunks, so this is reported under "Findings"; `ChunkText` models the loop as written, and `CompletePlan` is a corrected loop that emits such a sentence as a chunk of its own.
- **`chunk_text_by_paragraphs` can loop forever.** It returns only in three cases: there are no paragraphs, the overlap is negative, or the overlap is zero and every paragraph fits `max_tokens` alone (`ParagraphLoopExitsIff`). The method as written therefore requires that condition; see "Findings".

## Model

| member | source | states |
|---|---|---|
| TokenCounting.NewTokenCounter | backend/utils/chunker.py:6-18 | the counter keeps the model name; a model the library knows gets its own encoding; any other model gets the `cl100k_base` encoding instead of an error |
| TokenCounting.CountTokens | backend/utils/chunker.py:24-34 | `count_tokens` is the number of tokens the counter's encoder produces; with the fallback encoder for unknown models (`NewTokenCounter`, `CountTokensFor`) |
| TokenCounting.CountTokensFor | backend/utils/chunker.py:198-210 | the module-level `count_tokens` is the length of the encoding of the text under the model's encoding, or under `cl100k_base` for an unknown model |
| TokenCounting.CountTokensInMessages | backend/utils/chunker.py:36-55 | the total is 3 plus, for every message, its role and content counts plus 4; so it is at least 3 + 4 per message, and exactly 3 for no messages |
| TokenCounting.MessagesTokensAppend | backend/utils/chunker.py:47-52 | appending one message adds exactly its role and content counts plus 4 |
| TokenCounting.MessagesTokensAtLeastFraming | backend/utils/chunker.py:52 | every message costs at least its 4 framing tokens |
| TextSplit.Strip | backend/utils/chunker.py:70 | `strip()` gives the empty string exactly for an all-whitespace string; otherwise its result starts and ends with non-whitespace |
| TextSplit.StripKeepsMiddle | backend/utils/chunker.py:70 | `strip()` removes only whitespace at both ends and keeps the middle unchanged |
| TextSplit.MatchEnd | backend/utils/chunker.py:21-22 | a match of either compiled pattern ends after its start and within the text; what it matches is the longest delimiter there (`MatchEndIsLongestDelimiter`) |
| TextSplit.MatchEndIsLongestDelimiter | backend/utils/chunker.py:21-22 | at each start position the engine reports the longest delimiter the pattern describes that starts there, and no match exactly when no delimiter starts there |
| TextSplit.MatchEndSound | backend/utils/chunker.py:21-22 | what the engine reports is a delimiter: terminals, an optional quote, then whitespace; or a newline, whitespace and a newline |
| TextSplit.MatchEndComplete | backend/utils/chunker.py:21-22 | every delimiter that starts at a position is found there, with a match at least as long |
| TextSplit.SplitFromIsSplit | backend/utils/chunker.py:68 | the search loop of `re.split` yields pieces that run from the start to the end of the text, are separated by exactly the reported matches, and contain no match start |
| TextSplit.RegexSplit | backend/utils/chunker.py:68 | `pattern.split(text)` gives pieces within the text; they meet the split specification (`RegexSplitIsSplit`), which has one solution (`SplitIsUnique`) |
| TextSplit.RegexSplitIsSplit | backend/utils/chunker.py:68 | `pattern.split(text)` meets the declarative split specification |
| TextSplit.SplitIsUnique | backend/utils/chunker.py:68 | the split specification has exactly one solution |
| TextSplit.SplitIntoSentences | backend/utils/chunker.py:57-70 | `split_into_sentences` splits at sentence ends and keeps the stripped non-blank pieces; every sentence is non-empty with no whitespace at either end (which pieces are kept, and in what order: `KeptPieces`, `KeptFromInOrder`) |
| TextSplit.SplitIntoParagraphs | backend/utils/chunker.py:148 | the paragraph list splits at blank-line breaks and keeps the stripped non-blank pieces; every paragraph is non-empty with no whitespace at either end (empty exactly for blank text: `ParagraphsEmptyIffBlank`) |
| TextSplit.KeptFromInOrder | backend/utils/chunker.py:70 | the raw pieces the comprehension keeps are taken in strictly increasing text order |
| TextSplit.KeptPieces | backend/utils/chunker.py:70 | the i-th result is the stripped i-th raw piece that is not all whitespace |
| TextSplit.StripPiecesOfBlank | backend/utils/chunker.py:70 | over a blank text the comprehension keeps nothing |
| TextSplit.BlankTextHasNoPieces | backend/utils/chunker.py:68-70 | empty or whitespace-only text has no sentences and no paragraphs |
| TextSplit.ParagraphsEmptyIffBlank | backend/utils/chunker.py:148 | the paragraph list is empty exactly when the text is blank |
| TextSplit.SplitCovers | backend/utils/chunker.py:68 | every position of the text lies in a piece or in the match between two pieces |
| SentenceChunking.SumTokensAppend | backend/utils/chunker.py:95-96 | adding a sentence to a chunk adds exactly its count to the running sum |
| SentenceChunking.SumTokensPrefixMonotone | backend/utils/chunker.py:92 | a longer prefix never costs less |
| SentenceChunking.JoinOfNonEmptyParts | backend/utils/chunker.py:99 | joining non-empty parts gives the empty string only for no parts |
| SentenceChunking.GreedyCount | backend/utils/chunker.py:88-97 | the number of sentences taken is at most the number offered |
| SentenceChunking.GreedyPrefixFits | backend/utils/chunker.py:92-96 | the sentences taken sum to at most the budget |
| SentenceChunking.GreedyCountIsLongestFit | backend/utils/chunker.py:88-97 | the prefix taken fits `max_tokens - overlap_tokens`, and every longer prefix exceeds it |
| SentenceChunking.GreedyOverflowsNext | backend/utils/chunker.py:92-93 | when a sentence is left, adding it would exceed the budget |
| SentenceChunking.GreedyStopsBeforeOversized | backend/utils/chunker.py:92-93 | the prefix taken never reaches a sentence that alone exceeds the budget |
| SentenceChunking.CreateChunkWithOverlap | backend/utils/chunker.py:72-99 | returns the greedy prefix count and that prefix joined with single spaces |
| SentenceChunking.PlanChunksRenderPlan | backend/utils/chunker.py:118-133 | the chunks are the windows of `SentencePlan`, each joined with single spaces |
| SentenceChunking.ChunkTextTurn | backend/utils/chunker.py:121-131 | proof step for the loop invariant, not a property of its own (one turn unfolded): one loop turn emits the next planned chunk and moves the cursor by max(1, used - 1), or stops on an empty chunk |
| SentenceChunking.SentencePlanWithinBudget | backend/utils/chunker.py:88-133 | every chunk's sentences sum to at most `max_tokens - overlap_tokens` |
| SentenceChunking.SentencePlanAdvance | backend/utils/chunker.py:131 | the first chunk starts at the first sentence; each next chunk starts max(1, n - 1) sentences after the previous start, so a chunk of n >= 2 shares its last sentence with the next one and a chunk of one shares nothing |
| SentenceChunking.StopCursorReason | backend/utils/chunker.py:119-131 | the loop stops at the end of the list or at a sentence that alone exceeds the budget |
| SentenceChunking.SentencePlanEndsAtStop | backend/utils/chunker.py:127-131 | no chunk reaches past the stopping point, and the last chunk is the single sentence just before it |
| SentenceChunking.SentencePlanCoversBeforeStop | backend/utils/chunker.py:118-131 | every sentence before the stopping point lies in some chunk |
| SentenceChunking.SentencePlanCoverage | backend/utils/chunker.py:88-133 | the loop stops at the end or at an oversized sentence; every sentence before that point is in a chunk, none after it is; there are no chunks exactly when it stops at the first sentence |
| SentenceChunking.OverlapSentenceOpensNextWindow | backend/utils/chunker.py:131 | the last sentence of a chunk of two or more starts the next chunk |
| SentenceChunking.PairAtEndIsFollowedBySingleton | backend/utils/chunker.py:131 | a chunk of two or more sentences is never the last one; when it reaches the last sentence, one more chunk holds only that sentence |
| SentenceChunking.NoChunksWhenFirstSentenceOversized | backend/utils/chunker.py:88-133 | when the first sentence alone exceeds the budget there are no chunks |
| SentenceChunking.NoChunksWhenBudgetNotPositive | backend/utils/chunker.py:88-133 | with `max_tokens <= overlap_tokens` and sentences of at least one token each, there are no chunks |
| SentenceChunking.BlankTextHasNoChunks | backend/utils/chunker.py:114-119 | blank text gives no chunks |
| SentenceChunking.PlanChunksNonEmpty | backend/utils/chunker.py:127-130 | every chunk of non-empty sentences is non-empty |
| SentenceChunking.ChunkTextChunks | backend/utils/chunker.py:101-133 | the chunks are the plan's windows joined with spaces; there are at most as many chunks as sentences, and none is empty |
| SentenceChunking.ChunkSentences | backend/utils/chunker.py:115-133 | the cursor loop returns `PlanChunks` of the sentences with budget `max_tokens - overlap_tokens` |
| SentenceChunking.ChunkText | backend/utils/chunker.py:101-133 | `chunk_text` returns `PlanChunks` of the sentences of the text |
| SentenceChunking.ChunkTextFor | backend/utils/chunker.py:212-226 | the wrapper chunks with the counter for the model (default `gpt-3.5-turbo`, 1000 and 100 tokens) |
| SentenceChunking.CompletePlanExtendsSentencePlan | backend/utils/chunker.py:127-128 | the corrected plan has the same chunks as `chunk_text` up to its stopping point and continues from there, so where `chunk_text` stops at the end of the list the two are equal |
| SentenceChunking.CompletePlanCoverage | backend/utils/chunker.py:127-128 | in the corrected plan every sentence lies in some chunk |
| SentenceChunking.CompletePlanWithinBudget | backend/utils/chunker.py:88-133 | every corrected chunk fits `max_tokens - overlap_tokens`, except a single sentence that alone exceeds it |
| SentenceChunking.CompleteChunksRenderPlan | backend/utils/chunker.py:127-130 | the corrected chunk strings are the windows of `CompletePlan` joined with single spaces |
| SentenceChunking.CompleteTurn | backend/utils/chunker.py:121-131 | proof step for the loop invariant, not a property of its own (one turn unfolded): one corrected turn emits the chunk of `create_chunk_with_overlap`, or the oversized sentence alone when it takes none, and moves the cursor by max(1, used - 1) |
| SentenceChunking.ChunkSentencesComplete | backend/utils/chunker.py:115-133 | the corrected cursor loop returns `CompleteChunks` of the sentences |
| SentenceChunking.ChunkTextComplete | backend/utils/chunker.py:101-133 | `chunk_text` with the corrected loop returns `CompleteChunks` of the sentences of the text |
| ParagraphChunking.CursorAdvances | backend/utils/chunker.py:151-172 | under the exit condition every turn moves the cursor forward |
| ParagraphChunking.ParagraphLoopNeverExits | backend/utils/chunker.py:172 | with an overlap of one or more and at least one paragraph, the cursor never reaches the end |
| ParagraphChunking.OversizedParagraphStallsLoop | backend/utils/chunker.py:157-172 | with no overlap, the cursor never passes a paragraph that alone exceeds `max_tokens` |
| ParagraphChunking.OversizedParagraphAddsNothing | backend/utils/chunker.py:157-172 | a paragraph over `max_tokens` at the cursor adds no paragraph, and with overlap >= 0 the cursor does not advance |
| ParagraphChunking.CursorReachesEnd | backend/utils/chunker.py:152-172 | under the exit condition the cursor reaches the end within one turn per paragraph |
| ParagraphChunking.ParagraphLoopExitsIff | backend/utils/chunker.py:152-172 | the outer loop ends exactly when there are no paragraphs, the overlap is negative, or the overlap is zero and every paragraph fits alone |
| ParagraphChunking.DefaultOverlapNeverReturns | backend/utils/chunker.py:135-172 | with the default overlap of one paragraph, any non-blank text keeps the cursor inside the list forever |
| ParagraphChunking.FillChunk | backend/utils/chunker.py:153-166 | the inner loop takes the longest run of paragraphs from the cursor that fits `max_tokens`, and they sum to at most `max_tokens` |
| ParagraphChunking.ParagraphTurn | backend/utils/chunker.py:153-172 | proof step for the loop invariant, not a property of its own (one turn unfolded): one outer turn emits the taken paragraphs joined by a blank line when there are any, and moves the cursor to max(0, cursor - overlap) |
| ParagraphChunking.ChunkParagraphs | backend/utils/chunker.py:149-174 | the loops as written return `ParagraphChunks` of the paragraphs |
| ParagraphChunking.ChunkTextByParagraphs | backend/utils/chunker.py:135-174 | `chunk_text_by_paragraphs` returns `ParagraphChunks` of the paragraphs of the text, whenever it returns |
| ParagraphChunking.NoOverlapPartition | backend/utils/chunker.py:148-174 | where the method returns with no overlap, its chunks split the paragraphs in order into groups joined by blank lines: each paragraph in exactly one group, and each group within `max_tokens` |
| ParagraphChunking.ProgressCursor | backend/utils/chunker.py:172 | the corrected cursor step always moves forward |
| ParagraphChunking.ProgressingAgreesWhereSourceReturns | backend/utils/chunker.py:151-174 | wherever the method as written returns and every paragraph fits `max_tokens` alone, the corrected loop returns the same chunks; with overlap >= 0 that is every input on which the source returns |
| ParagraphChunking.ProgressingChunksRenderPlan | backend/utils/chunker.py:168-169 | the corrected chunks are windows of paragraphs joined by blank lines |
| ParagraphChunking.ProgressingPlanWithinBudget | backend/utils/chunker.py:161-169 | every corrected chunk holds at least one paragraph, and its paragraphs sum to at most `max_tokens`, or it is a single paragraph that alone exceeds `max_tokens` |
| ParagraphChunking.ProgressingPlanCoverage | backend/utils/chunker.py:151-172 | with overlap >= 0, every paragraph lies in some corrected chunk, an oversized one included |
| ParagraphChunking.NoOverlapTilesParagraphs | backend/utils/chunker.py:151-172 | with no overlap, the corrected chunks read one after another give back every paragraph exactly once, in order |
| ParagraphChunking.ProgressingTurn | backend/utils/chunker.py:153-172 | proof step for the loop invariant, not a property of its own (one turn unfolded): one corrected outer turn emits the paragraphs the inner loop took, joined by a blank line, or the paragraph at the cursor alone when it took none, and moves the cursor to max(start + 1, cursor - overlap) |
| ParagraphChunking.ChunkParagraphsProgressing | backend/utils/chunker.py:149-174 | the corrected loops return `ProgressingChunks` for every input |
| ParagraphChunking.ChunkTextByParagraphsFor | backend/utils/chunker.py:228-242 | the wrapper chunks with the counter for the model using the corrected loop; wherever the method as written returns and every paragraph fits `max_tokens`, the result is the same |

## Left out

- The tokenizer library (`tiktoken.encoding_for_model`, `get_encoding` and `encode`) is foreign code. An encoding is a function value and the library's tables are a `Registry` parameter. `Registry.Valid` states what the fallback needs: `cl100k_base` exists and every known model names an existing encoding.
- `tiktoken`'s `Encoding.encode` raises `ValueError` on text that contains a special-token string such as `<|endoftext|>` (its default `disallowed_special="all"`). That error would propagate out of `count_tokens`, `chunk_text` and `chunk_text_by_paragraphs`. The encoder is modelled as a total function, so this error path is not modelled.
- ChunkText and ChunkTextFor model `chunk_text` as written, with its loss of text after an oversized sentence. The corrected loop (`ChunkSentencesComplete`, `ChunkTextComplete`) is given beside them and is not used by the module-level wrapper.
- `estimate_cost` (chunker.py:176-196) is left out. It is floating-point price arithmetic.
- A message without a `"role"` or `"content"` key raises `KeyError` in the source. `Message` is a record with both fields, so that error path is not modelled.
- ChunkTextByParagraphs and ChunkParagraphs require `ParagraphLoopExits`, which the source does not check. On every other input the loops never end (`ParagraphLoopExitsIff`). A method that does not terminate cannot be written here, so those inputs are captured by the lemmas on `CursorAfter` instead. On those inputs the list grows on every turn whose inner loop takes a paragraph, and stays the same while the cursor is stuck at a paragraph that alone exceeds `max_tokens`; neither is modelled.
- ChunkTextByParagraphsFor uses the corrected loop. It equals the source's result wherever the source returns and every paragraph fits `max_tokens` alone (second `ensures`). On inputs where the source runs forever, the model returns the corrected chunks, in which a paragraph that alone exceeds `max_tokens` is a chunk of its own.
- ProgressingAgreesWhereSourceReturns requires every paragraph to fit `max_tokens` alone. The source also returns with a negative overlap and an oversized paragraph; there it skips that paragraph, while the corrected loop emits it as a chunk of its own, so the two differ.
- ProgressingPlanCoverage requires an overlap of zero or more. With a negative overlap both the source and the corrected loop jump the cursor past paragraphs, and those paragraphs are in no chunk.
- ChunkText and ChunkTextFor state their result as `PlanChunks`. The budget, overlap, coverage and non-emptiness properties are lemmas about `PlanChunks` and `SentencePlan` (`ChunkTextChunks`, `SentencePlanCoverage`).
- The inner loop of `chunk_text_by_paragraphs` is a helper method (`FillChunk`) shared by the loop as written and the corrected loop. The outer loops of `chunk_text` and `chunk_text_by_paragraphs` are methods over the sentence or paragraph list (`ChunkSentences`, `ChunkParagraphs`).
- Python's `re` engine is modelled only for the two patterns the class compiles. Its general backtracking is not modelled.
- `async_summarizer.py`, `sanitizer.py`, `main.py` and the other backend and frontend files are not part of this model.

## Findings

| source | as written | input that shows it | evidently intended | confidence | as-written member | corrected member |
|---|---|---|---|---|---|---|
| backend/utils/chunker.py:172 | after each chunk, `current_pos = max(0, current_pos - overlap_paragraphs)` sets the cursor back to at most one paragraph before the end of the list, so `while current_pos < len(paragraphs)` never ends when `overlap_paragraphs >= 1` (the default at lines 135 and 228); with `overlap_paragraphs == 0` it never ends either when one paragraph alone exceeds `max_tokens`, since the cursor never passes it (`OversizedParagraphStallsLoop`) | `chunk_text_by_paragraphs("Hello.")` with the defaults: one paragraph, the cursor goes 0 → 1 → 0 forever, appending "Hello." each turn; with overlap 0, any text with a paragraph over `max_tokens` | step back by the overlap but always move at least one paragraph forward: `max(start + 1, current_pos - overlap_paragraphs)`; a paragraph that alone exceeds `max_tokens` becomes a chunk of its own, so with an overlap of zero or more every paragraph lies in some chunk | high; not executed | ParagraphChunking.DefaultOverlapNeverReturns | ParagraphChunking.ProgressingPlanCoverage |
| backend/utils/chunker.py:127-128 | when `create_chunk_with_overlap` takes no sentence because the one at the cursor alone exceeds `max_tokens - overlap_tokens`, the loop breaks, so that sentence and every later one are in no chunk | with the defaults (1000, 100), a text whose first sentence has more than 900 tokens gives `[]`; a text whose second sentence has more than 900 tokens gives only the first sentence | emit the oversized sentence as a chunk of its own and move past it, so every sentence lies in some chunk | medium; not executed | SentenceChunking.SentencePlanCoverage | SentenceChunking.CompletePlanCoverage |
