/**
 * Character classes, Python's `str.strip()` and `re.split` for the two
 * patterns a TokenCounter compiles:
 *
 *   sentence_endings  = [.!?]+["']?\s+
 *   paragraph_breaks  = \n\s*\n
 *
 * `re.split` searches for the leftmost match, tries every start position in
 * turn, and at each position takes the match the backtracking engine finds
 * first (greedy quantifiers). `MatchEnd` writes that engine out for the two
 * patterns; `IsDelimiter` states declaratively which strings the patterns
 * describe, and `MatchEndIsLongestDelimiter` ties the two together.
 */
module TextSplit {

  import opened Wrappers

  /** Python's `str.isspace()`; `\s` in a str pattern matches exactly these. */
  predicate IsSpace(c: char) {
    var n := c as int;
    n == 0x20 || 0x09 <= n <= 0x0D || 0x1C <= n <= 0x1F || n == 0x85 || n == 0xA0
    || n == 0x1680 || 0x2000 <= n <= 0x200A || n == 0x2028 || n == 0x2029
    || n == 0x202F || n == 0x205F || n == 0x3000
  }

  /** The character class `[.!?]`. */
  predicate IsTerminal(c: char) {
    c == '.' || c == '!' || c == '?'
  }

  /** The character class `["']`. */
  predicate IsQuote(c: char) {
    c == '"' || c == '\''
  }

  predicate AllSpace(s: string) {
    forall i :: 0 <= i < |s| ==> IsSpace(s[i])
  }

  /** A piece that `strip()` leaves unchanged and that the comprehensions keep. */
  predicate IsStripped(t: string) {
    t != "" && !IsSpace(t[0]) && !IsSpace(t[|t| - 1])
  }

  /** End of the maximal run of whitespace starting at i. */
  function SpaceRunEnd(s: string, i: nat): (j: nat)
    requires i <= |s|
    ensures i <= j <= |s|
    ensures forall k :: i <= k < j ==> IsSpace(s[k])
    ensures j < |s| ==> !IsSpace(s[j])
    decreases |s| - i
  {
    if i == |s| || !IsSpace(s[i]) then i else SpaceRunEnd(s, i + 1)
  }

  /** End of the maximal run of `[.!?]` starting at i. */
  function TerminalRunEnd(s: string, i: nat): (j: nat)
    requires i <= |s|
    ensures i <= j <= |s|
    ensures forall k :: i <= k < j ==> IsTerminal(s[k])
    ensures j < |s| ==> !IsTerminal(s[j])
    decreases |s| - i
  {
    if i == |s| || !IsTerminal(s[i]) then i else TerminalRunEnd(s, i + 1)
  }

  /** Start of the whitespace suffix of s[lo..hi]. */
  function SpaceSuffixStart(s: string, lo: nat, hi: nat): (k: nat)
    requires lo <= hi <= |s|
    ensures lo <= k <= hi
    ensures forall m :: k <= m < hi ==> IsSpace(s[m])
    ensures lo < k ==> !IsSpace(s[k - 1])
    decreases hi
  {
    if hi == lo || !IsSpace(s[hi - 1]) then hi else SpaceSuffixStart(s, lo, hi - 1)
  }

  /** Index of the first character `strip()` keeps (|s| when it keeps none). */
  function StripLo(s: string): nat
    ensures StripLo(s) <= |s|
  {
    SpaceRunEnd(s, 0)
  }

  /** Python's `str.strip()` with no argument. */
  function Strip(s: string): (r: string)
    ensures r == "" <==> AllSpace(s)
    ensures r != "" ==> IsStripped(r)
  {
    var a := SpaceRunEnd(s, 0);
    var b := SpaceSuffixStart(s, a, |s|);
    assert AllSpace(s[..a]) && AllSpace(s[b..]);
    assert a == b ==> a == |s| && s[..a] == s;
    s[a..b]
  }

  /** `strip()` removes whitespace at both ends and keeps the middle as it is. */
  lemma StripKeepsMiddle(s: string)
    ensures var lo, r := StripLo(s), Strip(s);
            lo + |r| <= |s| && r == s[lo..lo + |r|]
            && AllSpace(s[..lo]) && AllSpace(s[lo + |r|..])
  {
    var a := SpaceRunEnd(s, 0);
    var b := SpaceSuffixStart(s, a, |s|);
    assert AllSpace(s[..a]) && AllSpace(s[b..]);
  }

  // ---------------------------------------------------------------------
  // The two patterns
  // ---------------------------------------------------------------------

  datatype Pattern = SentenceEnd | ParagraphBreak

  /** Greatest index in [lo, hi) that holds a newline. */
  function LastNewline(s: string, lo: nat, hi: nat): (r: Option<nat>)
    requires lo <= hi <= |s|
    ensures r.Some? ==> lo <= r.value < hi && s[r.value] == '\n'
    ensures r.Some? ==> forall m :: r.value < m < hi ==> s[m] != '\n'
    ensures r.None? ==> forall m :: lo <= m < hi ==> s[m] != '\n'
    decreases hi
  {
    if hi == lo then None
    else if s[hi - 1] == '\n' then Some(hi - 1)
    else LastNewline(s, lo, hi - 1)
  }

  /**
   * The end of the match of `pat` that Python's backtracking engine reports
   * when it tries start position p, or None when the pattern fails there.
   *
   * `[.!?]+["']?\s+`: the run of terminals is taken whole (a shorter one
   * leaves a terminal, which is neither quote nor space); the quote is taken
   * if whitespace follows it, and otherwise the match fails, since the quote
   * is not whitespace either; `\s+` takes the whole whitespace run.
   *
   * `\n\s*\n`: `\s*` takes the whole whitespace run and gives back characters
   * until a newline follows, so the match ends just after the last newline
   * of the run.
   */
  function MatchEnd(pat: Pattern, s: string, p: nat): (r: Option<nat>)
    requires p <= |s|
    ensures r.Some? ==> p < r.value <= |s|
  {
    if p == |s| then None
    else match pat
      case SentenceEnd =>
        if !IsTerminal(s[p]) then None
        else
          var j := TerminalRunEnd(s, p);
          if j < |s| && IsQuote(s[j]) then
            (if j + 1 < |s| && IsSpace(s[j + 1]) then Some(SpaceRunEnd(s, j + 1)) else None)
          else if j < |s| && IsSpace(s[j]) then Some(SpaceRunEnd(s, j))
          else None
      case ParagraphBreak =>
        if s[p] != '\n' then None
        else
          match LastNewline(s, p + 1, SpaceRunEnd(s, p + 1))
          case None => None
          case Some(l) => Some(l + 1)
  }

  /** d = terminals d[..j], then an optional quote d[j..k], then whitespace d[k..]. */
  predicate SentenceDelimiterAt(d: string, j: nat, k: nat) {
    1 <= j <= k < |d| && k <= j + 1
    && (forall i :: 0 <= i < j ==> IsTerminal(d[i]))
    && (k == j + 1 ==> IsQuote(d[j]))
    && (forall i :: k <= i < |d| ==> IsSpace(d[i]))
  }

  /** The strings `[.!?]+["']?\s+` describes. */
  ghost predicate IsSentenceDelimiter(d: string) {
    exists j: nat, k: nat :: SentenceDelimiterAt(d, j, k)
  }

  /** The strings `\n\s*\n` describes. */
  predicate IsParagraphBreak(d: string) {
    |d| >= 2 && d[0] == '\n' && d[|d| - 1] == '\n' && AllSpace(d)
  }

  ghost predicate IsDelimiter(pat: Pattern, d: string) {
    match pat
    case SentenceEnd => IsSentenceDelimiter(d)
    case ParagraphBreak => IsParagraphBreak(d)
  }

  /** What the engine reports is a delimiter. */
  lemma MatchEndSound(pat: Pattern, s: string, p: nat)
    requires p <= |s| && MatchEnd(pat, s, p).Some?
    ensures IsDelimiter(pat, s[p..MatchEnd(pat, s, p).value])
  {
    var e := MatchEnd(pat, s, p).value;
    var d := s[p..e];
    match pat
    case SentenceEnd =>
      var j := TerminalRunEnd(s, p);
      if j < |s| && IsQuote(s[j]) {
        assert SentenceDelimiterAt(d, j - p, j + 1 - p);
      } else {
        assert SentenceDelimiterAt(d, j - p, j - p);
      }
    case ParagraphBreak =>
      assert AllSpace(d) by {
        forall i | 0 <= i < |d| ensures IsSpace(d[i]) {
          assert d[i] == s[p + i];
        }
      }
  }

  /** Every delimiter starting at p is found by the engine, which reports one at least as long. */
  lemma MatchEndComplete(pat: Pattern, s: string, p: nat, e: nat)
    requires p < e <= |s| && IsDelimiter(pat, s[p..e])
    ensures MatchEnd(pat, s, p).Some? && e <= MatchEnd(pat, s, p).value
  {
    var d := s[p..e];
    match pat
    case SentenceEnd =>
      var j: nat, k: nat :| SentenceDelimiterAt(d, j, k);
      assert d[0] == s[p];
      var run := TerminalRunEnd(s, p);
      assert run == p + j by {
        forall i | p <= i < p + j ensures IsTerminal(s[i]) { assert d[i - p] == s[i]; }
        assert d[j] == s[p + j];
        assert !IsTerminal(s[p + j]);
      }
      forall i | p + k <= i < e ensures IsSpace(s[i]) { assert d[i - p] == s[i]; }
      assert d[k] == s[p + k];
      if k == j + 1 {
        assert IsQuote(s[run]);
        assert SpaceRunEnd(s, p + k) >= e;
      } else {
        assert IsSpace(s[run]);
        assert SpaceRunEnd(s, p + k) >= e;
      }
    case ParagraphBreak =>
      assert d[0] == s[p] && d[|d| - 1] == s[e - 1];
      forall i | p <= i < e ensures IsSpace(s[i]) { assert d[i - p] == s[i]; }
      var run := SpaceRunEnd(s, p + 1);
      assert e <= run;
      var l := LastNewline(s, p + 1, run);
      assert l.Some? && e - 1 <= l.value;
  }

  /**
   * The engine's match at p is the longest delimiter that starts at p, and
   * it reports no match exactly when no delimiter starts there.
   */
  lemma MatchEndIsLongestDelimiter(pat: Pattern, s: string, p: nat)
    requires p <= |s|
    ensures MatchEnd(pat, s, p).Some? ==>
              IsDelimiter(pat, s[p..MatchEnd(pat, s, p).value])
              && forall e :: MatchEnd(pat, s, p).value < e <= |s| ==> !IsDelimiter(pat, s[p..e])
    ensures MatchEnd(pat, s, p).None? ==> forall e :: p < e <= |s| ==> !IsDelimiter(pat, s[p..e])
  {
    if MatchEnd(pat, s, p).Some? {
      MatchEndSound(pat, s, p);
    }
    forall e | p < e <= |s| && IsDelimiter(pat, s[p..e])
      ensures MatchEnd(pat, s, p).Some? && e <= MatchEnd(pat, s, p).value
    {
      MatchEndComplete(pat, s, p, e);
    }
  }

  // ---------------------------------------------------------------------
  // re.split
  // ---------------------------------------------------------------------

  /** A piece s[lo..hi] of the split text. */
  datatype Span = Span(lo: nat, hi: nat)

  predicate SpansWithin(s: string, spans: seq<Span>) {
    forall k :: 0 <= k < |spans| ==> spans[k].lo <= spans[k].hi <= |s|
  }

  /** The text of one piece. */
  function Piece(s: string, sp: Span): string
    requires sp.lo <= sp.hi <= |s|
  {
    s[sp.lo..sp.hi]
  }

  /**
   * What `re.split` returns, as spans of s, when the search starts at `from`:
   * the pieces run from `from` to the end of s, consecutive pieces are
   * separated by exactly the match the engine reports at the end of the first,
   * and no match starts inside any piece (every match was found, leftmost first).
   */
  ghost predicate IsSplitOf(pat: Pattern, s: string, from: nat, spans: seq<Span>) {
    |spans| >= 1 && spans[0].lo == from && spans[|spans| - 1].hi == |s|
    && SpansWithin(s, spans)
    && (forall k :: 0 <= k < |spans| - 1 ==> SeparatedBy(pat, s, spans[k], spans[k + 1]))
    && (forall k :: 0 <= k < |spans| ==> NoMatchIn(pat, s, spans[k]))
  }

  /** The match the engine reports at the end of `a` ends where `b` begins. */
  predicate SeparatedBy(pat: Pattern, s: string, a: Span, b: Span)
    requires a.hi <= |s|
  {
    MatchEnd(pat, s, a.hi) == Some(b.lo)
  }

  /** No match starts inside the piece. */
  predicate NoMatchIn(pat: Pattern, s: string, sp: Span)
    requires sp.hi <= |s|
  {
    forall p :: sp.lo <= p < sp.hi ==> MatchEnd(pat, s, p).None?
  }

  /** The search loop of `re.split`: the current piece began at `start`, position i is tried next. */
  function SplitFrom(pat: Pattern, s: string, start: nat, i: nat): (r: seq<Span>)
    requires start <= i <= |s|
    ensures SpansWithin(s, r)
    decreases |s| - i
  {
    if i == |s| then [Span(start, |s|)]
    else match MatchEnd(pat, s, i)
      case Some(e) => [Span(start, i)] + SplitFrom(pat, s, e, e)
      case None => SplitFrom(pat, s, start, i + 1)
  }

  /** The search loop finds every match, leftmost first, and splits there. */
  lemma {:induction false} SplitFromIsSplit(pat: Pattern, s: string, start: nat, i: nat)
    requires start <= i <= |s| && NoMatchIn(pat, s, Span(start, i))
    ensures IsSplitOf(pat, s, start, SplitFrom(pat, s, start, i))
    decreases |s| - i
  {
    if i < |s| {
      var m := MatchEnd(pat, s, i);
      if m.Some? {
        var e := m.value;
        SplitFromIsSplit(pat, s, e, e);
        SplitAtMatch(pat, s, start, i, e, SplitFrom(pat, s, e, e));
      } else {
        forall p | start <= p < i + 1 ensures MatchEnd(pat, s, p).None? {
          if p < i {
            assert NoMatchIn(pat, s, Span(start, i));
          }
        }
        SplitFromIsSplit(pat, s, start, i + 1);
      }
    }
  }

  /** A piece free of matches, the match at its end, then a split of the rest: a split. */
  lemma SplitAtMatch(pat: Pattern, s: string, start: nat, i: nat, e: nat, rest: seq<Span>)
    requires start <= i < |s| && NoMatchIn(pat, s, Span(start, i)) && MatchEnd(pat, s, i) == Some(e)
    requires IsSplitOf(pat, s, e, rest)
    ensures IsSplitOf(pat, s, start, [Span(start, i)] + rest)
  {
    var r := [Span(start, i)] + rest;
    assert SeparatedBy(pat, s, r[0], r[1]);
    assert forall k :: 1 <= k < |r| ==> r[k] == rest[k - 1];
  }

  /** `pattern.split(s)`, as spans. */
  function RegexSplit(pat: Pattern, s: string): (r: seq<Span>)
    ensures SpansWithin(s, r)
  {
    SplitFrom(pat, s, 0, 0)
  }

  /** `pattern.split(s)` is the split of s by `pat` that `IsSplitOf` specifies. */
  lemma RegexSplitIsSplit(pat: Pattern, s: string)
    ensures IsSplitOf(pat, s, 0, RegexSplit(pat, s))
  {
    SplitFromIsSplit(pat, s, 0, 0);
  }

  /** `[p.strip() for p in pieces if p.strip()]`. */
  function StripPieces(s: string, spans: seq<Span>): (r: seq<string>)
    requires SpansWithin(s, spans)
    ensures |r| <= |spans|
  {
    if spans == [] then []
    else
      var t := Strip(Piece(s, spans[0]));
      (if t == "" then [] else [t]) + StripPieces(s, spans[1..])
  }

  /** Every piece the comprehension keeps is non-empty and has no surrounding whitespace. */
  lemma {:induction false} StripPiecesAreStripped(s: string, spans: seq<Span>)
    requires SpansWithin(s, spans)
    ensures forall k :: 0 <= k < |StripPieces(s, spans)| ==> IsStripped(StripPieces(s, spans)[k])
  {
    if spans != [] {
      var t, rest := Strip(Piece(s, spans[0])), StripPieces(s, spans[1..]);
      StripPiecesAreStripped(s, spans[1..]);
      if t != "" {
        assert StripPieces(s, spans) == [t] + rest;
      }
    }
  }

  /**
   * `TokenCounter.split_into_sentences`: the text between sentence ends,
   * stripped, with blank pieces dropped; every sentence is non-empty and has
   * no whitespace at either end.
   */
  function SplitIntoSentences(text: string): (r: seq<string>)
    ensures forall k :: 0 <= k < |r| ==> IsStripped(r[k])
  {
    StripPiecesAreStripped(text, RegexSplit(SentenceEnd, text));
    StripPieces(text, RegexSplit(SentenceEnd, text))
  }

  /**
   * The paragraph list `chunk_text_by_paragraphs` builds before chunking: the
   * text between blank-line breaks, stripped, with blank pieces dropped; every
   * paragraph is non-empty and has no whitespace at either end.
   */
  function SplitIntoParagraphs(text: string): (r: seq<string>)
    ensures forall k :: 0 <= k < |r| ==> IsStripped(r[k])
  {
    StripPiecesAreStripped(text, RegexSplit(ParagraphBreak, text));
    StripPieces(text, RegexSplit(ParagraphBreak, text))
  }

  /** The indices, from `from` on, of the raw pieces that are not all whitespace, so do not strip to nothing. */
  function KeptFrom(s: string, spans: seq<Span>, from: nat): seq<nat>
    requires SpansWithin(s, spans) && from <= |spans|
    decreases |spans| - from
  {
    if from == |spans| then []
    else if AllSpace(Piece(s, spans[from])) then KeptFrom(s, spans, from + 1)
    else [from] + KeptFrom(s, spans, from + 1)
  }

  /** The kept indices lie in [from, |spans|) and are strictly increasing. */
  lemma {:induction false} KeptFromInOrder(s: string, spans: seq<Span>, from: nat)
    requires SpansWithin(s, spans) && from <= |spans|
    ensures forall i :: 0 <= i < |KeptFrom(s, spans, from)| ==> from <= KeptFrom(s, spans, from)[i] < |spans|
    ensures forall i, j :: 0 <= i < j < |KeptFrom(s, spans, from)| ==> KeptFrom(s, spans, from)[i] < KeptFrom(s, spans, from)[j]
    decreases |spans| - from
  {
    if from < |spans| {
      var ks, rest := KeptFrom(s, spans, from), KeptFrom(s, spans, from + 1);
      KeptFromInOrder(s, spans, from + 1);
      if ks != rest {
        assert ks == [from] + rest;
        forall i | 1 <= i < |ks| ensures from < ks[i] < |spans| {
          assert ks[i] == rest[i - 1];
        }
        forall i, j | 0 <= i < j < |ks| ensures ks[i] < ks[j] {
          if i > 0 {
            assert ks[i] == rest[i - 1] && ks[j] == rest[j - 1];
          }
        }
      }
    }
  }

  /**
   * Which raw pieces the comprehension keeps: the i-th result is the stripped
   * ks[i]-th piece, where ks is `KeptFrom`, which `KeptFromInOrder` shows to
   * be strictly increasing, so the results keep the order of the text.
   */
  lemma {:induction false} KeptPieces(s: string, spans: seq<Span>, from: nat)
    requires SpansWithin(s, spans) && from <= |spans|
    ensures KeptAre(s, spans, KeptFrom(s, spans, from), StripPieces(s, spans[from..]))
    decreases |spans| - from
  {
    if from < |spans| {
      var t := Strip(Piece(s, spans[from]));
      var ks, rest := KeptFrom(s, spans, from), KeptFrom(s, spans, from + 1);
      var ps, tail := StripPieces(s, spans[from..]), StripPieces(s, spans[from + 1..]);
      KeptPieces(s, spans, from + 1);
      StripPiecesStep(s, spans, from);
      if t != "" {
        assert ks == [from] + rest && ps == [t] + tail;
        forall i | 1 <= i < |ks| ensures ks[i] < |spans| && ps[i] == Strip(Piece(s, spans[ks[i]])) {
          assert ks[i] == rest[i - 1] && ps[i] == tail[i - 1];
        }
      }
    }
  }

  /** The i-th kept piece is the stripped ks[i]-th raw piece. */
  predicate KeptAre(s: string, spans: seq<Span>, ks: seq<nat>, ps: seq<string>)
    requires SpansWithin(s, spans)
  {
    |ks| == |ps| && forall i :: 0 <= i < |ks| ==> ks[i] < |spans| && ps[i] == Strip(Piece(s, spans[ks[i]]))
  }

  /** The comprehension over the pieces from `from` on, one piece at a time. */
  lemma StripPiecesStep(s: string, spans: seq<Span>, from: nat)
    requires SpansWithin(s, spans) && from < |spans|
    ensures Strip(Piece(s, spans[from])) == "" ==> StripPieces(s, spans[from..]) == StripPieces(s, spans[from + 1..])
    ensures Strip(Piece(s, spans[from])) != "" ==>
              StripPieces(s, spans[from..]) == [Strip(Piece(s, spans[from]))] + StripPieces(s, spans[from + 1..])
  {
    assert spans[from..][0] == spans[from] && spans[from..][1..] == spans[from + 1..];
  }

  /** A blank piece strips to nothing, so blank text leaves no piece at all. */
  lemma {:induction false} StripPiecesOfBlank(s: string, spans: seq<Span>)
    requires SpansWithin(s, spans) && AllSpace(s)
    ensures StripPieces(s, spans) == []
  {
    if spans != [] {
      var piece := Piece(s, spans[0]);
      assert forall i :: 0 <= i < |piece| ==> piece[i] == s[spans[0].lo + i];
      StripPiecesOfBlank(s, spans[1..]);
    }
  }

  /** Empty or whitespace-only text has no sentences and no paragraphs. */
  lemma BlankTextHasNoPieces(text: string)
    requires AllSpace(text)
    ensures SplitIntoSentences(text) == [] && SplitIntoParagraphs(text) == []
  {
    StripPiecesOfBlank(text, RegexSplit(SentenceEnd, text));
    StripPiecesOfBlank(text, RegexSplit(ParagraphBreak, text));
  }

  /**
   * Every position of the text lies in a piece or in the match after one of
   * them: in piece k when `inPiece`, otherwise between pieces k and k + 1.
   */
  lemma {:induction false} SplitCovers(pat: Pattern, s: string, from: nat, spans: seq<Span>, q: nat)
    returns (k: nat, inPiece: bool)
    requires IsSplitOf(pat, s, from, spans) && from <= q < |s|
    ensures k < |spans|
    ensures inPiece ==> spans[k].lo <= q < spans[k].hi
    ensures !inPiece ==> k + 1 < |spans| && spans[k].hi <= q < spans[k + 1].lo
    decreases |spans|
  {
    if q < spans[0].hi {
      k, inPiece := 0, true;
    } else if q < spans[1].lo {
      k, inPiece := 0, false;
    } else {
      var tail := spans[1..];
      assert forall j :: 0 <= j < |tail| ==> tail[j] == spans[j + 1];
      var j;
      j, inPiece := SplitCovers(pat, s, spans[1].lo, tail, q);
      k := j + 1;
    }
  }

  /**
   * Paragraph breaks are all whitespace, so every non-whitespace character of
   * the text survives in some paragraph: the paragraph list is empty exactly
   * when the text is blank.
   */
  lemma ParagraphsEmptyIffBlank(text: string)
    ensures SplitIntoParagraphs(text) == [] <==> AllSpace(text)
  {
    if AllSpace(text) {
      BlankTextHasNoPieces(text);
    } else {
      var q :| 0 <= q < |text| && !IsSpace(text[q]);
      NonBlankCharacterKept(text, q);
    }
  }

  /** A non-whitespace character lies in a piece, never in a paragraph break, so some paragraph remains. */
  lemma NonBlankCharacterKept(text: string, q: nat)
    requires q < |text| && !IsSpace(text[q])
    ensures SplitIntoParagraphs(text) != []
  {
    var spans := RegexSplit(ParagraphBreak, text);
    RegexSplitIsSplit(ParagraphBreak, text);
    var k, inPiece := SplitCovers(ParagraphBreak, text, 0, spans, q);
    if !inPiece {
      assert SeparatedBy(ParagraphBreak, text, spans[k], spans[k + 1]);
      MatchEndSound(ParagraphBreak, text, spans[k].hi);
      assert false;
    }
    StripPiecesKeepsNonBlank(text, spans, k, q);
  }

  lemma {:induction false} StripPiecesKeepsNonBlank(s: string, spans: seq<Span>, k: nat, q: nat)
    requires SpansWithin(s, spans) && k < |spans| && spans[k].lo <= q < spans[k].hi && !IsSpace(s[q])
    ensures StripPieces(s, spans) != []
  {
    if k == 0 {
      var piece := Piece(s, spans[0]);
      assert piece[q - spans[0].lo] == s[q];
      assert Strip(piece) != "";
    } else {
      StripPiecesKeepsNonBlank(s, spans[1..], k - 1, q);
    }
  }

  /** The specification of a split has only one solution, the one `RegexSplit` computes. */
  lemma {:induction false} SplitIsUnique(pat: Pattern, s: string, from: nat, a: seq<Span>, b: seq<Span>)
    requires IsSplitOf(pat, s, from, a) && IsSplitOf(pat, s, from, b)
    ensures a == b
    decreases |a|
  {
    // Each first piece ends at a match or at the end of s, and no match lies inside the other.
    assert |a| > 1 ==> MatchEnd(pat, s, a[0].hi) == Some(a[1].lo);
    assert |b| > 1 ==> MatchEnd(pat, s, b[0].hi) == Some(b[1].lo);
    assert a[0].hi == b[0].hi;
    if |a| == 1 || |b| == 1 {
      assert a[0].hi == |s| && b[0].hi == |s|;
      assert |a| == 1 && |b| == 1;
    } else {
      var ta, tb := a[1..], b[1..];
      assert forall k :: 0 <= k < |ta| ==> ta[k] == a[k + 1];
      assert forall k :: 0 <= k < |tb| ==> tb[k] == b[k + 1];
      assert a[1].lo == b[1].lo;
      SplitIsUnique(pat, s, a[1].lo, ta, tb);
      assert a == [a[0]] + ta && b == [b[0]] + tb;
    }
  }
}
