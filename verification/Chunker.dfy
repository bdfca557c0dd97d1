/**
 * runner/rag_helper.py: text is split into paragraphs, paragraphs into sentences, and sentences
 * are packed into chunks of at most `max` word tokens; a longer sentence is cut into pieces.
 */
module Chunker {
  import opened WordTokens

  // -------------------------------------------------------------------------------------------
  // Paragraphs: re.split(r"\n\s*\n+", text)
  // -------------------------------------------------------------------------------------------

  /** The last newline of the whitespace run that goes on at `j`, or `last` when there is none. */
  function LastNewline(s: Str, j: nat, last: nat): (e: nat)
    requires last < j <= |s| && s[last].Newline?
    requires forall i | last < i < j :: s[i].Blank?
    ensures last <= e < |s| && s[e].Newline?
    ensures forall i | last <= i <= e :: IsSpace(s[i])
    decreases |s| - j
  {
    if j < |s| && IsSpace(s[j]) then LastNewline(s, j + 1, if s[j].Newline? then j else last)
    else last
  }

  /** Only something other than whitespace keeps the run from reaching a later newline. */
  lemma {:induction false} LastNewlineIsLast(s: Str, j: nat, last: nat, k: nat)
    requires last < j <= k < |s| && s[last].Newline? && s[k].Newline?
    requires forall i | last < i < j :: s[i].Blank?
    requires forall i | j <= i < k :: IsSpace(s[i])
    ensures LastNewline(s, j, last) >= k
    decreases |s| - j
  {
    if j < k {
      LastNewlineIsLast(s, j + 1, if s[j].Newline? then j else last, k);
    }
  }

  /** A newline from which only whitespace leads to another newline. */
  predicate IsBreakAt(s: Str, i: nat) {
    i < |s| && s[i].Newline? && LastNewline(s, i + 1, i) > i
  }

  function FirstBreak(s: Str, i: nat): (b: nat)
    requires i <= |s|
    ensures i <= b <= |s| && (b < |s| ==> IsBreakAt(s, b))
    ensures forall k | i <= k < b :: !IsBreakAt(s, k)
    decreases |s| - i
  {
    if i == |s| || IsBreakAt(s, i) then i else FirstBreak(s, i + 1)
  }

  /** The next separator, from its first newline to just after its last; (|s|, |s|) when there is none. */
  function NextSeparator(s: Str): (r: (nat, nat))
    ensures r.0 <= r.1 <= |s|
    ensures r.0 < |s| ==> r.0 + 1 < r.1 && s[r.0].Newline? && s[r.1 - 1].Newline?
    ensures forall i | r.0 <= i < r.1 :: IsSpace(s[i])
  {
    var b := FirstBreak(s, 0);
    if b == |s| then (b, b) else (b, LastNewline(s, b + 1, b) + 1)
  }

  function Paragraphs(s: Str): seq<Str>
    decreases |s|
  {
    var (b, e) := NextSeparator(s);
    if b == |s| then [s] else [s[..b]] + Paragraphs(s[e..])
  }

  lemma {:induction false} ParagraphsKeepTokens(s: Str)
    ensures AllTokens(Paragraphs(s)) == Tokens(s)
    decreases |s|
  {
    var (b, e) := NextSeparator(s);
    if b < |s| {
      ParagraphsKeepTokens(s[e..]);
      GapCostsNothing(s, b, e);
      assert Paragraphs(s)[1..] == Paragraphs(s[e..]);
    } else {
      assert [s][1..] == [];
    }
  }

  lemma CutInThree(s: Str, b: nat, e: nat)
    requires b < e <= |s| && forall i | b <= i < e :: IsSpace(s[i])
    ensures s == s[..b] + s[b..e] + s[e..]
    ensures forall i | 0 <= i < e - b :: !s[b..e][i].Word?
  {
    forall i | 0 <= i < e - b ensures !s[b..e][i].Word? {
      assert s[b..e][i] == s[b + i] && IsSpace(s[b + i]);
    }
  }

  lemma {:induction false} GapCostsNothing(s: Str, b: nat, e: nat)
    requires b < e <= |s| && forall i | b <= i < e :: IsSpace(s[i])
    ensures Tokens(s) == Tokens(s[..b]) + Tokens(s[e..])
  {
    CutInThree(s, b, e);
    TokensAround(s[..b], s[b..e], s[e..]);
  }

  /** A newline, whitespace, and a later newline. */
  ghost predicate GapIn(s: Str, i: int, k: int) {
    0 <= i < k < |s| && s[i].Newline? && s[k].Newline? && forall j | i < j < k :: IsSpace(s[j])
  }

  ghost predicate HasGap(s: Str) {
    exists i, k :: GapIn(s, i, k)
  }

  function Interleaved(paragraphs: seq<Str>, gaps: seq<Str>): Str
    requires |paragraphs| == |gaps| + 1
  {
    if |gaps| == 0 then paragraphs[0]
    else paragraphs[0] + gaps[0] + Interleaved(paragraphs[1..], gaps[1..])
  }

  lemma GapStartsBreak(s: Str, b: nat, i: int, k: int)
    requires b <= |s| && GapIn(s[..b], i, k)
    ensures i < b && IsBreakAt(s, i)
  {
    forall j | i < j < k ensures IsSpace(s[j]) {
      assert s[..b][j] == s[j];
    }
    LastNewlineIsLast(s, i + 1, i, k);
  }

  lemma NoGapBeforeBreak(s: Str, b: nat)
    requires b <= |s| && forall i | 0 <= i < b :: !IsBreakAt(s, i)
    ensures !HasGap(s[..b])
  {
    if i, k :| GapIn(s[..b], i, k) {
      GapStartsBreak(s, b, i, k);
    }
  }

  /** Only whitespace leads from the start of the text to some newline of it. */
  ghost predicate LeadsToNewline(s: Str) {
    exists k :: 0 <= k < |s| && s[k].Newline? && forall j | 0 <= j < k :: IsSpace(s[j])
  }

  /** Only whitespace leads from some newline of the text to its end. */
  ghost predicate TrailsNewline(s: Str) {
    exists k :: 0 <= k < |s| && s[k].Newline? && forall j | k < j < |s| :: IsSpace(s[j])
  }

  /** The separator takes in every newline of its whitespace, on both sides. */
  lemma {:induction false} SeparatorIsMaximal(s: Str)
    ensures var (b, e) := NextSeparator(s); b < |s| ==> !TrailsNewline(s[..b]) && !LeadsToNewline(s[e..])
  {
    var (b, e) := NextSeparator(s);
    if b < |s| {
      if k :| 0 <= k < b && s[..b][k].Newline? && forall j | k < j < b :: IsSpace(s[..b][j]) {
        forall j | k < j < b ensures IsSpace(s[j]) {
          assert s[..b][j] == s[j];
        }
        LastNewlineIsLast(s, k + 1, k, b);
        assert IsBreakAt(s, k);
      }
      if k :| 0 <= k < |s[e..]| && s[e..][k].Newline? && forall j | 0 <= j < k :: IsSpace(s[e..][j]) {
        forall j | b + 1 <= j < e + k ensures IsSpace(s[j]) {
          if j >= e {
            assert s[e..][j - e] == s[j];
          }
        }
        LastNewlineIsLast(s, b + 1, b, e + k);
      }
    }
  }

  lemma {:induction false} SeparatorCuts(s: Str)
    ensures var (b, e) := NextSeparator(s);
            && !HasGap(s[..b])
            && (b < |s| ==> GapIn(s[b..e], 0, e - b - 1) && s == s[..b] + s[b..e] + s[e..])
  {
    var (b, e) := NextSeparator(s);
    NoGapBeforeBreak(s, b);
    if b < |s| {
      CutInThree(s, b, e);
      SpaceIsGap(s, b, e);
    }
  }

  lemma SpaceIsGap(s: Str, b: nat, e: nat)
    requires b + 1 < e <= |s| && s[b].Newline? && s[e - 1].Newline?
    requires forall i | b <= i < e :: IsSpace(s[i])
    ensures GapIn(s[b..e], 0, e - b - 1)
  {
    forall j | 0 <= j < e - b ensures IsSpace(s[b..e][j]) {
      assert s[b..e][j] == s[b + j];
    }
  }

  /** No gap leaves a newline of its whitespace to the paragraph before it or to the text after it. */
  ghost predicate AreMaximal(paragraphs: seq<Str>, gaps: seq<Str>)
    requires |paragraphs| == |gaps| + 1
  {
    |gaps| > 0 ==>
      && !TrailsNewline(paragraphs[0]) && !LeadsToNewline(Interleaved(paragraphs[1..], gaps[1..]))
      && AreMaximal(paragraphs[1..], gaps[1..])
  }

  ghost predicate AreSeparated(s: Str, paragraphs: seq<Str>, gaps: seq<Str>) {
    && |paragraphs| == |gaps| + 1 && s == Interleaved(paragraphs, gaps)
    && (forall g | g in gaps :: GapIn(g, 0, |g| - 1))
    && (forall p | p in paragraphs :: !HasGap(p))
    && AreMaximal(paragraphs, gaps)
  }

  lemma SeparateOneMore(whole: Str, p: Str, gap: Str, rest: Str,
                        all: seq<Str>, paragraphs: seq<Str>, gaps: seq<Str>)
    requires whole == p + gap + rest && all == [p] + paragraphs
    requires AreSeparated(rest, paragraphs, gaps) && !HasGap(p) && GapIn(gap, 0, |gap| - 1)
    requires !TrailsNewline(p) && !LeadsToNewline(rest)
    ensures AreSeparated(whole, all, [gap] + gaps)
  {
    assert all[1..] == paragraphs && ([gap] + gaps)[1..] == gaps;
  }

  lemma {:induction false} FirstCut(s: Str, b: nat, e: nat)
    requires (b, e) == NextSeparator(s) && b < |s|
    ensures s == s[..b] + s[b..e] + s[e..] && !HasGap(s[..b]) && GapIn(s[b..e], 0, |s[b..e]| - 1)
    ensures !TrailsNewline(s[..b]) && !LeadsToNewline(s[e..])
  {
    SeparatorCuts(s);
    SeparatorIsMaximal(s);
  }

  /** The first separator and what follows it, taken on from the paragraphs of the rest. */
  lemma {:induction false} SeparateFirst(s: Str, b: nat, e: nat, paragraphs: seq<Str>, gaps: seq<Str>)
    requires (b, e) == NextSeparator(s) && b < |s| && AreSeparated(s[e..], paragraphs, gaps)
    ensures AreSeparated(s, [s[..b]] + paragraphs, [s[b..e]] + gaps)
  {
    FirstCut(s, b, e);
    SeparateOneMore(s, s[..b], s[b..e], s[e..], [s[..b]] + paragraphs, paragraphs, gaps);
  }

  /** The separators between the paragraphs of a text. */
  function Gaps(s: Str): seq<Str>
    decreases |s|
  {
    var (b, e) := NextSeparator(s);
    if b == |s| then [] else [s[b..e]] + Gaps(s[e..])
  }

  /**
   * The paragraphs of a text are what stands between its gaps: no paragraph has a gap in it, and no
   * gap could begin earlier or end later.
   */
  lemma {:induction false} ParagraphsAreExact(s: Str)
    ensures AreSeparated(s, Paragraphs(s), Gaps(s))
    decreases |s|
  {
    var (b, e) := NextSeparator(s);
    if b == |s| {
      SeparatorCuts(s);
      OneParagraph(s);
    } else {
      ParagraphsAreExact(s[e..]);
      SeparateFirst(s, b, e, Paragraphs(s[e..]), Gaps(s[e..]));
    }
  }

  lemma OneParagraph(s: Str)
    requires NextSeparator(s).0 == |s| && !HasGap(s[..|s|])
    ensures AreSeparated(s, Paragraphs(s), [])
  {
    assert s[..|s|] == s;
  }

  // -------------------------------------------------------------------------------------------
  // Sentences
  // -------------------------------------------------------------------------------------------

  function StopRun(s: Str, i: nat): (e: nat)
    requires i <= |s|
    ensures i <= e <= |s|
    ensures forall k | i <= k < e :: s[k].Stop?
    ensures e < |s| ==> !s[e].Stop?
    decreases |s| - i
  {
    if i < |s| && s[i].Stop? then StopRun(s, i + 1) else i
  }

  function QuoteRun(s: Str, i: nat): (e: nat)
    requires i <= |s|
    ensures i <= e <= |s|
    ensures forall k | i <= k < e :: s[k].Quote?
    ensures e < |s| ==> !s[e].Quote?
    decreases |s| - i
  {
    if i < |s| && s[i].Quote? then QuoteRun(s, i + 1) else i
  }

  function BodyRun(s: Str, i: nat): (e: nat)
    requires i <= |s|
    ensures i <= e <= |s|
    ensures forall k | i <= k < e :: !s[k].Stop?
    ensures e < |s| ==> s[e].Stop?
    decreases |s| - i
  {
    if i < |s| && !s[i].Stop? then BodyRun(s, i + 1) else i
  }

  /** Where a match of [^.!?]+(?:[.!?]+["”']*)? that starts the text ends. */
  function SentenceEnd(s: Str): (e: nat)
    requires |s| > 0 && !s[0].Stop?
    ensures 0 < e <= |s|
    ensures e < |s| ==> !s[e - 1].Word?
  {
    var body := BodyRun(s, 0);
    if body == |s| then body
    else QuoteRun(s, StopRun(s, body))
  }

  /**
   * One way to read [0, e) as the pattern does, each part as long as it can be: a body without stops,
   * then stops from `b` and quotation marks from `m`, or a body that is the whole text.
   */
  ghost predicate IsSentence(s: Str, b: nat, m: nat, e: nat) {
    && 0 < b <= m <= e <= |s|
    && (forall k | 0 <= k < b :: !s[k].Stop?)
    && (forall k | b <= k < m :: s[k].Stop?)
    && (forall k | m <= k < e :: s[k].Quote?)
    && (b < m || b == |s|)
    && (m < |s| ==> !s[m].Stop?) && (e < |s| ==> !s[e].Quote?)
  }

  /** There is exactly one end of a sentence: the end of the longest match from the start of the text. */
  lemma SentenceEndIsExact(s: Str, e: nat)
    requires |s| > 0 && !s[0].Stop?
    ensures (exists b, m :: IsSentence(s, b, m, e)) <==> e == SentenceEnd(s)
  {
    var body := BodyRun(s, 0);
    assert IsSentence(s, body, StopRun(s, body), SentenceEnd(s));
    if b: nat, m: nat :| IsSentence(s, b, m, e) {
      RunsAreMaximal(s, b, m, e);
    }
  }

  lemma RunsAreMaximal(s: Str, b: nat, m: nat, e: nat)
    requires IsSentence(s, b, m, e)
    ensures b == BodyRun(s, 0) && m == StopRun(s, b) && e == QuoteRun(s, m)
  {
    assert b < m ==> s[b].Stop?;
  }

  /** The matches of the sentence pattern; stops that begin no sentence are skipped. */
  function FindSentences(s: Str): seq<Str>
    decreases |s|
  {
    if |s| == 0 then []
    else if s[0].Stop? then FindSentences(s[1..])
    else [s[..SentenceEnd(s)]] + FindSentences(s[SentenceEnd(s)..])
  }

  ghost predicate IsFirstSentence(s: Str, e: nat) {
    exists b, m :: IsSentence(s, b, m, e)
  }

  ghost predicate AreStops(s: Str) {
    forall i | 0 <= i < |s| :: s[i].Stop?
  }

  /**
   * `s` is the sentences with the stops before, between and after them that begin none, each sentence
   * the longest match where it begins.
   */
  ghost predicate Alternates(s: Str, stops: seq<Str>, sentences: seq<Str>)
    decreases |sentences|
  {
    && |stops| == |sentences| + 1 && stops[0] <= s && AreStops(stops[0])
    && var rest := s[|stops[0]|..];
       if |sentences| == 0 then rest == []
       else
         && sentences[0] <= rest && IsFirstSentence(rest, |sentences[0]|)
         && Alternates(rest[|sentences[0]|..], stops[1..], sentences[1..])
  }

  ghost predicate AreSentences(s: Str, sentences: seq<Str>) {
    exists stops :: IsSentenceReading(s, stops, sentences)
  }

  /** With these stops skipped. */
  ghost predicate IsSentenceReading(s: Str, stops: seq<Str>, sentences: seq<Str>) {
    Alternates(s, stops, sentences)
  }

  lemma SkipStop(s: Str, stops: seq<Str>, sentences: seq<Str>)
    requires |s| > 0 && s[0].Stop? && Alternates(s[1..], stops, sentences)
    ensures Alternates(s, [[s[0]] + stops[0]] + stops[1..], sentences)
  {
    var stop := [s[0]] + stops[0];
    var more := [stop] + stops[1..];
    assert s == [s[0]] + s[1..];
    assert s[|stop|..] == s[1..][|stops[0]|..];
    assert more[1..] == stops[1..];
  }

  lemma TakeSentence(s: Str, stops: seq<Str>, sentences: seq<Str>)
    requires |s| > 0 && !s[0].Stop? && Alternates(s[SentenceEnd(s)..], stops, sentences)
    ensures Alternates(s, [[]] + stops, [s[..SentenceEnd(s)]] + sentences)
  {
    SentenceEndIsExact(s, SentenceEnd(s));
    assert s[0..] == s && ([[]] + stops)[1..] == stops && ([s[..SentenceEnd(s)]] + sentences)[1..] == sentences;
  }

  lemma {:induction false} FoundAlternate(s: Str) returns (stops: seq<Str>)
    ensures Alternates(s, stops, FindSentences(s))
    decreases |s|
  {
    if |s| == 0 {
      stops := [[]];
    } else if s[0].Stop? {
      var later := FoundAlternate(s[1..]);
      stops := [[s[0]] + later[0]] + later[1..];
      SkipStop(s, later, FindSentences(s));
    } else {
      var later := FoundAlternate(s[SentenceEnd(s)..]);
      stops := [[]] + later;
      TakeSentence(s, later, FindSentences(s[SentenceEnd(s)..]));
    }
  }

  lemma {:induction false} SentencesAfterStops(stops: Str, s: Str)
    requires AreStops(stops)
    ensures FindSentences(stops + s) == FindSentences(s)
  {
    if |stops| == 0 {
      assert stops + s == s;
    } else {
      assert (stops + s)[1..] == stops[1..] + s;
      SentencesAfterStops(stops[1..], s);
    }
  }

  lemma FirstFound(s: Str, sentence: Str)
    requires sentence <= s && IsFirstSentence(s, |sentence|)
    ensures FindSentences(s) == [sentence] + FindSentences(s[|sentence|..])
  {
    var b, m :| IsSentence(s, b, m, |sentence|);
    assert |s| > 0 && !s[0].Stop?;
    SentenceEndIsExact(s, |sentence|);
    assert |sentence| == SentenceEnd(s) && s[..|sentence|] == sentence;
  }

  lemma {:induction false} AlternatesAreFound(s: Str, stops: seq<Str>, sentences: seq<Str>)
    requires Alternates(s, stops, sentences)
    ensures sentences == FindSentences(s)
    decreases |sentences|
  {
    var rest := s[|stops[0]|..];
    assert s == stops[0] + rest;
    SentencesAfterStops(stops[0], rest);
    if |sentences| > 0 {
      FirstFound(rest, sentences[0]);
      AlternatesAreFound(rest[|sentences[0]|..], stops[1..], sentences[1..]);
      assert sentences == [sentences[0]] + sentences[1..];
    }
  }

  /**
   * A text is read as sentences in exactly one way: each begins where the one before it ended, past
   * the stops that begin none, and ends with the longest match from there.
   */
  lemma SentencesAreExact(s: Str, sentences: seq<Str>)
    ensures AreSentences(s, sentences) <==> sentences == FindSentences(s)
  {
    var found := FoundAlternate(s);
    assert IsSentenceReading(s, found, FindSentences(s));
    if stops :| IsSentenceReading(s, stops, sentences) {
      AlternatesAreFound(s, stops, sentences);
    }
  }

  lemma {:induction false} FindSentencesKeepsTokens(s: Str)
    ensures AllTokens(FindSentences(s)) == Tokens(s)
    decreases |s|
  {
    if |s| == 0 {
    } else if s[0].Stop? {
      FindSentencesKeepsTokens(s[1..]);
    } else {
      var e := SentenceEnd(s);
      FindSentencesKeepsTokens(s[e..]);
      TokensOfConcat(s[..e], s[e..]);
      assert s == s[..e] + s[e..];
      assert FindSentences(s)[1..] == FindSentences(s[e..]);
    }
  }

  /** paragraph.replace("\n", " ") */
  function Unwrapped(s: Str): (r: Str)
    ensures |r| == |s|
  {
    seq(|s|, i requires 0 <= i < |s| => if s[i].Newline? then SPACE else s[i])
  }

  lemma {:induction false} UnwrappedKeepsTokens(s: Str)
    ensures Tokens(Unwrapped(s)) == Tokens(s)
    decreases |s|
  {
    var r := Unwrapped(s);
    if |s| == 0 {
    } else if !s[0].Word? {
      UnwrappedKeepsTokens(s[1..]);
      assert r[1..] == Unwrapped(s[1..]);
    } else {
      var n := WordRun(s);
      WordRunIsMaximal(r, n);
      UnwrappedKeepsTokens(s[n..]);
      assert r[..n] == s[..n] && r[n..] == Unwrapped(s[n..]);
    }
  }

  function SplitIntoSentences(paragraph: Str): seq<Str> {
    StripAll(FindSentences(Strip(Unwrapped(paragraph))))
  }

  lemma SentencesKeepTokens(paragraph: Str)
    ensures AllTokens(SplitIntoSentences(paragraph)) == Tokens(paragraph)
    ensures forall s | s in SplitIntoSentences(paragraph) :: IsStripped(s)
  {
    var flat := Strip(Unwrapped(paragraph));
    UnwrappedKeepsTokens(paragraph);
    StripKeepsTokens(Unwrapped(paragraph));
    FindSentencesKeepsTokens(flat);
    StripAllKeepsTokens(FindSentences(flat));
  }

  ghost predicate IsOneLine(s: Str) {
    forall i | 0 <= i < |s| :: !s[i].Newline?
  }

  ghost predicate AreOneLine(texts: seq<Str>) {
    forall t | t in texts :: IsOneLine(t)
  }

  lemma {:induction false} FoundAreOneLine(s: Str)
    requires IsOneLine(s)
    ensures AreOneLine(FindSentences(s))
    decreases |s|
  {
    if |s| == 0 {
    } else if s[0].Stop? {
      FoundAreOneLine(s[1..]);
    } else {
      FoundAreOneLine(s[SentenceEnd(s)..]);
    }
  }

  lemma StripIsOneLine(s: Str)
    requires IsOneLine(s)
    ensures IsOneLine(Strip(s))
  {
    StripIsExact(s, Strip(s));
    var a, b :| IsBetween(a, Strip(s), b, s);
    forall i | 0 <= i < |Strip(s)| ensures !Strip(s)[i].Newline? {
      assert s[|a| + i] == Strip(s)[i];
    }
  }

  lemma {:induction false} StripAllAreOneLine(texts: seq<Str>)
    requires AreOneLine(texts)
    ensures AreOneLine(StripAll(texts))
  {
    if |texts| > 0 {
      assert texts[0] in texts;
      StripIsOneLine(texts[0]);
      StripAllAreOneLine(texts[1..]);
    }
  }

  /**
   * The sentences of a paragraph: its lines run on, with a space for each newline and every other
   * character in its place, are read as sentences in the one way there is; and none holds a newline.
   */
  lemma SplitIsExact(paragraph: Str, flat: Str, found: seq<Str>)
    requires |flat| == |paragraph|
    requires forall i | 0 <= i < |flat| :: flat[i] == if paragraph[i].Newline? then SPACE else paragraph[i]
    requires AreSentences(Strip(flat), found)
    ensures SplitIntoSentences(paragraph) == StripAll(found)
    ensures AreOneLine(SplitIntoSentences(paragraph))
  {
    assert flat == Unwrapped(paragraph);
    SentencesAreExact(Strip(flat), found);
    StripIsOneLine(flat);
    FoundAreOneLine(Strip(flat));
    StripAllAreOneLine(found);
  }

  // -------------------------------------------------------------------------------------------
  // Pieces of a sentence that is too long
  // -------------------------------------------------------------------------------------------

  function Min(a: nat, b: nat): nat { if a <= b then a else b }

  /** The words taken `max` at a time, each batch joined by spaces. */
  function Batches(words: seq<Str>, max: nat): seq<Str>
    requires max > 0
    decreases |words|
  {
    if |words| == 0 then []
    else [Join(words[..Min(max, |words|)])] + Batches(words[Min(max, |words|)..], max)
  }

  lemma NextBatch(words: seq<Str>, i: nat, end: nat, max: nat)
    requires max > 0 && i < |words| && end == Min(i + max, |words|)
    ensures Batches(words[i..], max) == [Join(words[i..end])] + Batches(words[end..], max)
  {
    var rest := words[i..];
    assert rest[..Min(max, |rest|)] == words[i..end] && rest[Min(max, |rest|)..] == words[end..];
  }

  method SplitSentenceTokens(sentence: Str, max: nat) returns (pieces: seq<Str>)
    requires max > 0
    ensures pieces == Batches(Words(sentence), max)
  {
    var tokens := Words(sentence);
    pieces := [];
    var i := 0;
    assert tokens[0..] == tokens;
    while i < |tokens|
      invariant 0 <= i <= |tokens|
      invariant pieces + Batches(tokens[i..], max) == Batches(tokens, max)
    {
      var end := Min(i + max, |tokens|);
      NextBatch(tokens, i, end, max);
      pieces := pieces + [Join(tokens[i..end])];
      i := end;
    }
  }

  /** Each piece holds at most `max` words, none of them empty, and no token is lost or moved. */
  lemma {:induction false} BatchesKeepWords(words: seq<Str>, max: nat)
    requires max > 0 && forall w | w in words :: IsWord(w)
    ensures AllTokens(Batches(words, max)) == AllTokens(words)
    ensures forall p | p in Batches(words, max) :: 1 <= |Words(p)| <= max && IsStripped(p)
    decreases |words|
  {
    if |words| > 0 {
      var n := Min(max, |words|);
      var first, rest := words[..n], words[n..];
      assert words == first + rest;
      AllTokensOfConcat(first, rest);
      JoinKeepsTokens(first);
      WordsOfJoin(first);
      JoinIsStripped(first);
      BatchesKeepWords(rest, max);
      assert Batches(words, max)[1..] == Batches(rest, max);
    }
  }

  /** The words of a list of texts, in order. */
  function AllWords(texts: seq<Str>): seq<Str> {
    if |texts| == 0 then [] else Words(texts[0]) + AllWords(texts[1..])
  }

  /** The pieces hold the words in order, and every piece but the last holds exactly `max` of them. */
  lemma {:induction false} BatchesAreFull(words: seq<Str>, max: nat)
    requires max > 0 && forall w | w in words :: IsWord(w)
    ensures var b := Batches(words, max);
            && AllWords(b) == words
            && forall i | 0 <= i < |b| - 1 :: |Words(b[i])| == max
    decreases |words|
  {
    if |words| > 0 {
      var n := Min(max, |words|);
      var first, rest := words[..n], words[n..];
      assert words == first + rest;
      WordsOfJoin(first);
      BatchesAreFull(rest, max);
      assert Batches(words, max)[1..] == Batches(rest, max);
    }
  }

  lemma {:induction false} JoinIsStripped(words: seq<Str>)
    requires |words| > 0 && forall w | w in words :: IsWord(w)
    ensures IsStripped(Join(words))
  {
    assert words[0] in words;
    if |words| > 1 {
      JoinIsStripped(words[1..]);
    }
  }

  // -------------------------------------------------------------------------------------------
  // Packing
  // -------------------------------------------------------------------------------------------

  /** What the packer reads: the start of another paragraph, or a sentence. */
  datatype Item = Break | Sentence(text: Str)

  type Group = seq<Item>

  function Size(item: Item): nat {
    if item.Break? then 0 else |Tokens(item.text)|
  }

  function Total(items: seq<Item>): nat {
    if |items| == 0 then 0 else Total(items[..|items| - 1]) + Size(items[|items| - 1])
  }

  /** The text a packed group is joined from. */
  function TextOf(item: Item): Str {
    if item.Break? then [Newline, Newline] else item.text
  }

  function TextsOf(items: seq<Item>): seq<Str> {
    if |items| == 0 then [] else TextsOf(items[..|items| - 1]) + [TextOf(items[|items| - 1])]
  }

  predicate IsOversize(g: Group, max: nat) {
    |g| > 0 && Size(g[0]) > max
  }

  /** One oversized sentence, or sentences that fit together; paragraph starts may follow any. */
  ghost predicate IsGroup(g: Group, max: nat) {
    && |g| > 0 && g[0].Sentence?
    && if IsOversize(g, max) then forall i | 0 < i < |g| :: g[i].Break? else Total(g) <= max
  }

  /** A group of ordinary sentences ends before another ordinary sentence only when it would overflow. */
  ghost predicate ClosesInTime(g: Group, next: Group, max: nat) {
    !IsOversize(g, max) && |next| > 0 && Size(next[0]) <= max ==> Total(g) + Size(next[0]) > max
  }

  /** The greedy partitions of items into groups, without reference to how one is found. */
  ghost predicate IsGreedy(groups: seq<Group>, max: nat) {
    |groups| > 0 ==>
      var n := |groups| - 1;
      && IsGreedy(groups[..n], max)
      && IsGroup(groups[n], max)
      && (n > 0 ==> ClosesInTime(groups[n - 1], groups[n], max))
  }

  lemma {:induction false} GroupsOfGreedy(groups: seq<Group>, max: nat)
    requires IsGreedy(groups, max)
    ensures forall i | 0 <= i < |groups| :: IsGroup(groups[i], max)
  {
    if |groups| > 0 {
      GroupsOfGreedy(groups[..|groups| - 1], max);
    }
  }

  function Flatten(groups: seq<Group>): seq<Item> {
    if |groups| == 0 then [] else Flatten(groups[..|groups| - 1]) + groups[|groups| - 1]
  }

  lemma {:induction false} FlattenFirst(groups: seq<Group>)
    requires |groups| > 0
    ensures Flatten(groups) == groups[0] + Flatten(groups[1..])
  {
    var n := |groups| - 1;
    if n == 0 {
      assert groups[..0] == [] && groups[1..] == [];
    } else {
      FlattenFirst(groups[..n]);
      assert groups[..n][1..] == groups[1..][..n - 1];
      assert groups[1..][n - 1] == groups[n];
    }
  }

  lemma {:induction false} TotalOfPrefix(items: seq<Item>, n: nat)
    requires n < |items|
    ensures Total(items[..n]) + Size(items[n]) <= Total(items)
  {
    var m := |items| - 1;
    if n < m {
      TotalOfPrefix(items[..m], n);
      assert items[..m][..n] == items[..n];
    }
  }

  /** A first group that stops short of another one over the same items closes too early. */
  lemma {:induction false} StopsTooEarly(p: seq<Group>, q: seq<Group>, max: nat)
    requires |p| > 0 && |q| > 0 && Flatten(p) == Flatten(q) && |p[0]| < |q[0]|
    requires IsGroup(q[0], max) && forall i | 0 <= i < |p| :: IsGroup(p[i], max)
    ensures |p| > 1 && !ClosesInTime(p[0], p[1], max)
  {
    var n := |p[0]|;
    FlattenFirst(p);
    FlattenFirst(q);
    var flat := Flatten(p);
    assert flat[..n] == p[0] && flat[..|q[0]|] == q[0];
    assert p[0] == q[0][..n] && p[0][0] == q[0][0];
    var rest := p[1..];
    assert flat[n..] == Flatten(rest);
    FlattenFirst(rest);
    assert q[0][n] == flat[n] == rest[0][0] == p[1][0];
    TotalOfPrefix(q[0], n);
  }

  lemma FirstGroupsAgree(p: seq<Group>, q: seq<Group>, max: nat)
    requires |p| > 0 && |q| > 0 && IsGreedy(p, max) && IsGreedy(q, max)
    requires Flatten(p) == Flatten(q)
    ensures |p[0]| >= |q[0]|
  {
    if |p[0]| < |q[0]| {
      GroupsOfGreedy(p, max);
      GroupsOfGreedy(q, max);
      StopsTooEarly(p, q, max);
      GreedyStart(p, max);
    }
  }

  /** There is exactly one greedy partition of a list of items. */
  lemma {:induction false} GreedyIsUnique(p: seq<Group>, q: seq<Group>, max: nat)
    requires IsGreedy(p, max) && IsGreedy(q, max) && Flatten(p) == Flatten(q)
    ensures p == q
  {
    if |p| > 0 {
      FlattenFirst(p);
    }
    if |q| > 0 {
      FlattenFirst(q);
    }
    if |p| > 0 && |q| > 0 {
      FirstGroupsAgree(p, q, max);
      FirstGroupsAgree(q, p, max);
      var flat := Flatten(p);
      assert flat[..|p[0]|] == p[0] && flat[..|q[0]|] == q[0];
      assert flat[|p[0]|..] == Flatten(p[1..]) && flat[|q[0]|..] == Flatten(q[1..]);
      TailIsGreedy(p, max);
      TailIsGreedy(q, max);
      GreedyIsUnique(p[1..], q[1..], max);
      assert p == [p[0]] + p[1..] && q == [q[0]] + q[1..];
    }
  }

  lemma {:induction false} GreedyStart(p: seq<Group>, max: nat)
    requires |p| > 1 && IsGreedy(p, max)
    ensures ClosesInTime(p[0], p[1], max)
  {
    if |p| > 2 {
      GreedyStart(p[..|p| - 1], max);
    }
  }

  lemma {:induction false} TailIsGreedy(p: seq<Group>, max: nat)
    requires |p| > 0 && IsGreedy(p, max)
    ensures IsGreedy(p[1..], max)
  {
    var n := |p| - 1;
    if n > 0 {
      TailIsGreedy(p[..n], max);
      assert p[1..][..n - 1] == p[..n][1..];
    }
  }

  // -------------------------------------------------------------------------------------------
  // The packing loop
  // -------------------------------------------------------------------------------------------

  /** The chunks a group comes out as. */
  function RenderedGroup(g: Group, max: nat): seq<Str>
    requires max > 0
  {
    if IsOversize(g, max) then Batches(Words(TextOf(g[0])), max) else [Strip(Join(TextsOf(g)))]
  }

  function Rendered(groups: seq<Group>, max: nat): seq<Str>
    requires max > 0
  {
    if |groups| == 0 then []
    else Rendered(groups[..|groups| - 1], max) + RenderedGroup(groups[|groups| - 1], max)
  }

  function SentenceItems(sentences: seq<Str>): seq<Item> {
    if |sentences| == 0 then []
    else SentenceItems(sentences[..|sentences| - 1]) + [Sentence(sentences[|sentences| - 1])]
  }

  function ParagraphItems(paragraphs: seq<Str>): seq<Item> {
    if |paragraphs| == 0 then []
    else
      ParagraphItems(paragraphs[..|paragraphs| - 1])
      + [Break] + SentenceItems(SplitIntoSentences(paragraphs[|paragraphs| - 1]))
  }

  function DropBreaks(items: seq<Item>): seq<Item> {
    if |items| > 0 && items[0].Break? then DropBreaks(items[1..]) else items
  }

  /** The sentences of a text in order, with a mark where a paragraph starts after the first sentence. */
  function Items(text: Str): seq<Item> {
    DropBreaks(ParagraphItems(StripAll(Paragraphs(text))))
  }

  lemma {:induction false} DropBreaksOfAppend(items: seq<Item>, item: Item)
    ensures var kept := DropBreaks(items);
            DropBreaks(items + [item]) == if |kept| == 0 && item.Break? then [] else kept + [item]
  {
    if |items| > 0 && items[0].Break? {
      DropBreaksOfAppend(items[1..], item);
      assert (items + [item])[1..] == items[1..] + [item];
    }
  }

  function Grown(groups: seq<Group>, item: Item): seq<Group>
    requires |groups| > 0
  {
    var n := |groups| - 1;
    groups[..n] + [groups[n] + [item]]
  }

  lemma GrowLast(groups: seq<Group>, item: Item, max: nat)
    requires max > 0 && |groups| > 0 && IsGreedy(groups, max)
    requires var g := groups[|groups| - 1]; item.Break? || (!IsOversize(g, max) && Total(g) + Size(item) <= max)
    ensures IsGreedy(Grown(groups, item), max)
    ensures Flatten(Grown(groups, item)) == Flatten(groups) + [item]
  {
    var n := |groups| - 1;
    var g, longer, grown := groups[n], groups[n] + [item], Grown(groups, item);
    assert longer[..|g|] == g && longer[0] == g[0];
    assert grown[..n] == groups[..n] && grown[n] == longer;
    assert n > 0 ==> ClosesInTime(groups[n - 1], g, max);
  }

  lemma AddGroup(groups: seq<Group>, item: Item, max: nat)
    requires max > 0 && IsGreedy(groups, max) && item.Sentence?
    requires |groups| > 0 ==> ClosesInTime(groups[|groups| - 1], [item], max)
    ensures IsGreedy(groups + [[item]], max)
    ensures Flatten(groups + [[item]]) == Flatten(groups) + [item]
  {
    var more := groups + [[item]];
    assert more[..|groups|] == groups && more[|groups|] == [item];
    SingleItem(item);
    assert IsGroup([item], max);
  }

  /**
   * The loop's variables as a view of the groups made so far: `sentences` and `tokens` belong to
   * the last group while it is open, and `chunks` to the groups that are closed.
   */
  ghost predicate Packing(groups: seq<Group>, chunks: seq<Str>, sentences: seq<Str>, tokens: nat, max: nat) {
    var n := |groups| - 1;
    && max > 0 && IsGreedy(groups, max)
    && if |sentences| == 0 then
         tokens == 0 && chunks == Rendered(groups, max) && (n >= 0 ==> IsOversize(groups[n], max))
       else
         && n >= 0 && !IsOversize(groups[n], max)
         && sentences == TextsOf(groups[n]) && tokens == Total(groups[n])
         && chunks == Rendered(groups[..n], max)
  }

  /** One more item, in each of the ways the loop takes it in. */
  lemma {:induction false} TakeBreak(groups: seq<Group>, chunks: seq<Str>, sentences: seq<Str>, tokens: nat, max: nat)
    requires |groups| > 0 && Packing(groups, chunks, sentences, tokens, max)
    ensures Packing(Grown(groups, Break), chunks,
                    if |sentences| > 0 then sentences + [[Newline, Newline]] else [], tokens, max)
    ensures Flatten(Grown(groups, Break)) == Flatten(groups) + [Break]
  {
    GrowLast(groups, Break, max);
    var n := |groups| - 1;
    var longer := groups[n] + [Break];
    assert longer[..|groups[n]|] == groups[n] && longer[0] == groups[n][0];
    assert Grown(groups, Break)[..n] == groups[..n] && Grown(groups, Break)[n] == longer;
  }

  lemma {:induction false} TakeOn(groups: seq<Group>, chunks: seq<Str>, sentences: seq<Str>, tokens: nat, max: nat, s: Str)
    requires Packing(groups, chunks, sentences, tokens, max) && |Tokens(s)| + tokens <= max && |sentences| > 0
    ensures Packing(Grown(groups, Sentence(s)), chunks, sentences + [s], tokens + |Tokens(s)|, max)
    ensures Flatten(Grown(groups, Sentence(s))) == Flatten(groups) + [Sentence(s)]
  {
    var item := Sentence(s);
    var n := |groups| - 1;
    GrowLast(groups, item, max);
    GrownParts(groups, item);
    OneMoreItem(groups[n], item, max);
  }

  lemma GrownParts(groups: seq<Group>, item: Item)
    requires |groups| > 0
    ensures var n := |groups| - 1;
            && |Grown(groups, item)| == n + 1
            && Grown(groups, item)[..n] == groups[..n] && Grown(groups, item)[n] == groups[n] + [item]
  {
  }

  lemma OneMoreItem(g: Group, item: Item, max: nat)
    requires |g| > 0
    ensures TextsOf(g + [item]) == TextsOf(g) + [TextOf(item)] && Total(g + [item]) == Total(g) + Size(item)
    ensures IsOversize(g + [item], max) == IsOversize(g, max)
  {
    assert (g + [item])[..|g|] == g && (g + [item])[0] == g[0];
  }

  lemma {:induction false} TakeFitting(groups: seq<Group>, chunks: seq<Str>, sentences: seq<Str>, tokens: nat, max: nat, s: Str)
    requires Packing(groups, chunks, sentences, tokens, max) && |Tokens(s)| + tokens <= max
    ensures var next := if |sentences| > 0 then Grown(groups, Sentence(s)) else groups + [[Sentence(s)]];
            && Packing(next, chunks, sentences + [s], tokens + |Tokens(s)|, max)
            && Flatten(next) == Flatten(groups) + [Sentence(s)]
  {
    if |sentences| > 0 {
      TakeOn(groups, chunks, sentences, tokens, max, s);
    } else {
      AddGroup(groups, Sentence(s), max);
      SingleItem(Sentence(s));
      assert (groups + [[Sentence(s)]])[..|groups|] == groups;
    }
  }

  lemma SingleItem(item: Item)
    ensures Total([item]) == Size(item) && TextsOf([item]) == [TextOf(item)]
  {
    assert [item][..0] == [];
  }

  /** Closing the open group, if there is one. */
  lemma CloseOpen(groups: seq<Group>, chunks: seq<Str>, sentences: seq<Str>, tokens: nat, max: nat)
    requires Packing(groups, chunks, sentences, tokens, max)
    ensures Rendered(groups, max) == chunks + if |sentences| > 0 then [Strip(Join(sentences))] else []
  {
  }

  lemma {:induction false} TakeOverflowing(groups: seq<Group>, chunks: seq<Str>, sentences: seq<Str>, tokens: nat, max: nat, s: Str)
    requires Packing(groups, chunks, sentences, tokens, max)
    requires |Tokens(s)| <= max && tokens > 0 && tokens + |Tokens(s)| > max
    ensures var next := groups + [[Sentence(s)]];
            && Packing(next, chunks + [Strip(Join(sentences))], [s], |Tokens(s)|, max)
            && Flatten(next) == Flatten(groups) + [Sentence(s)]
  {
    CloseOpen(groups, chunks, sentences, tokens, max);
    AddGroup(groups, Sentence(s), max);
    SingleItem(Sentence(s));
    assert (groups + [[Sentence(s)]])[..|groups|] == groups;
  }

  lemma {:induction false} TakeOversize(groups: seq<Group>, chunks: seq<Str>, sentences: seq<Str>, tokens: nat, max: nat, s: Str)
    requires Packing(groups, chunks, sentences, tokens, max) && |Tokens(s)| > max
    ensures var next := groups + [[Sentence(s)]];
            && Packing(next, Rendered(groups, max) + Batches(Words(s), max), [], 0, max)
            && Flatten(next) == Flatten(groups) + [Sentence(s)]
  {
    AddGroup(groups, Sentence(s), max);
    assert (groups + [[Sentence(s)]])[..|groups|] == groups;
  }

  function Max(a: int, b: int): int { if a >= b then a else b }

  /** One turn of the inner loop: close the open group, cut the sentence up, or add it. */
  method PackSentence(sentence: Str, max: nat, chunks: seq<Str>, currentSentences: seq<Str>, currentTokens: nat,
                      ghost groups: seq<Group>)
    returns (chunks': seq<Str>, currentSentences': seq<Str>, currentTokens': nat, ghost groups': seq<Group>)
    requires Packing(groups, chunks, currentSentences, currentTokens, max)
    ensures Packing(groups', chunks', currentSentences', currentTokens', max)
    ensures Flatten(groups') == Flatten(groups) + [Sentence(sentence)]
  {
    chunks', currentSentences', currentTokens' := chunks, currentSentences, currentTokens;
    groups' := groups + [[Sentence(sentence)]];
    var sentenceTokens := |Tokens(sentence)|;
    if sentenceTokens > max {
      TakeOversize(groups, chunks, currentSentences, currentTokens, max, sentence);
      CloseOpen(groups, chunks, currentSentences, currentTokens, max);
      if |currentSentences| > 0 {
        chunks' := chunks' + [Strip(Join(currentSentences))];
      }
      currentSentences', currentTokens' := [], 0;
      var pieces := SplitSentenceTokens(sentence, max);
      chunks' := chunks' + pieces;
      return;
    }
    if currentTokens > 0 && currentTokens + sentenceTokens > max {
      TakeOverflowing(groups, chunks, currentSentences, currentTokens, max, sentence);
      chunks' := chunks' + [Strip(Join(currentSentences))];
      currentSentences', currentTokens' := [], 0;
    } else {
      TakeFitting(groups, chunks, currentSentences, currentTokens, max, sentence);
      groups' := if |currentSentences| > 0 then Grown(groups, Sentence(sentence)) else groups';
    }
    currentSentences' := currentSentences' + [sentence];
    currentTokens' := currentTokens' + sentenceTokens;
  }

  lemma {:induction false} DropBreaksOfSentences(items: seq<Item>, sentences: seq<Str>, k: nat)
    requires k < |sentences|
    ensures var start := items + SentenceItems(sentences[..k]);
            DropBreaks(items + SentenceItems(sentences[..k + 1])) == DropBreaks(start) + [Sentence(sentences[k])]
  {
    var start := items + SentenceItems(sentences[..k]);
    DropBreaksOfAppend(start, Sentence(sentences[k]));
    assert sentences[..k + 1][..k] == sentences[..k];
    assert items + SentenceItems(sentences[..k + 1]) == start + [Sentence(sentences[k])];
  }

  /** The body of the outer loop. */
  method PackParagraph(paragraph: Str, max: nat, chunks: seq<Str>, currentSentences: seq<Str>, currentTokens: nat,
                       ghost groups: seq<Group>, ghost items: seq<Item>)
    returns (chunks': seq<Str>, currentSentences': seq<Str>, currentTokens': nat, ghost groups': seq<Group>)
    requires Packing(groups, chunks, currentSentences, currentTokens, max)
    requires Flatten(groups) == DropBreaks(items)
    ensures Packing(groups', chunks', currentSentences', currentTokens', max)
    ensures Flatten(groups') == DropBreaks(items + [Break] + SentenceItems(SplitIntoSentences(paragraph)))
  {
    chunks', currentSentences', currentTokens', groups' := chunks, currentSentences, currentTokens, groups;
    DropBreaksOfAppend(items, Break);
    if |groups'| > 0 {
      TakeBreak(groups', chunks', currentSentences', currentTokens', max);
      groups' := Grown(groups', Break);
    }
    if |currentSentences'| > 0 {
      currentSentences' := currentSentences' + [[Newline, Newline]];
    }
    ghost var start := items + [Break];
    var sentences := SplitIntoSentences(paragraph);
    assert start + SentenceItems(sentences[..0]) == start;
    for k := 0 to |sentences|
      invariant Packing(groups', chunks', currentSentences', currentTokens', max)
      invariant Flatten(groups') == DropBreaks(start + SentenceItems(sentences[..k]))
    {
      DropBreaksOfSentences(start, sentences, k);
      chunks', currentSentences', currentTokens', groups' :=
        PackSentence(sentences[k], max, chunks', currentSentences', currentTokens', groups');
    }
    assert sentences[..|sentences|] == sentences;
  }

  /** The chunks of a text are its greedy groups, each rendered: one chunk, or the pieces of a long sentence. */
  ghost predicate IsChunking(text: Str, max: nat, groups: seq<Group>, chunks: seq<Str>)
    requires max > 0
  {
    IsGreedy(groups, max) && Flatten(groups) == Items(text) && chunks == Rendered(groups, max)
  }

  /** Within the limit in tokens, or else a piece of a long sentence, within the limit in words. */
  ghost predicate KeepsSomeLimit(chunk: Str, max: nat) {
    IsStripped(chunk) && (|Tokens(chunk)| <= max || 1 <= |Words(chunk)| <= max)
  }

  method ChunkText(text: Str, maxChars: int) returns (chunks: seq<Str>)
    ensures exists groups :: IsChunking(text, Max(1, maxChars), groups, chunks)
    ensures AllTokens(chunks) == Tokens(text)
    ensures forall c | c in chunks :: KeepsSomeLimit(c, Max(1, maxChars))
  {
    chunks := [];
    ghost var groups: seq<Group> := [];
    var max := Max(1, maxChars);
    if |text| == 0 {
      EmptyHasNoItems(text);
      assert IsChunking(text, Max(1, maxChars), groups, chunks);
      ChunkingIsSound(text, max, groups, chunks);
      return;
    }
    var paragraphs := StripAll(Paragraphs(text));
    var currentSentences: seq<Str> := [];
    var currentTokens: nat := 0;
    for i := 0 to |paragraphs|
      invariant Packing(groups, chunks, currentSentences, currentTokens, max)
      invariant Flatten(groups) == DropBreaks(ParagraphItems(paragraphs[..i]))
    {
      ParagraphItemsOfAppend(paragraphs, i);
      chunks, currentSentences, currentTokens, groups :=
        PackParagraph(paragraphs[i], max, chunks, currentSentences, currentTokens, groups, ParagraphItems(paragraphs[..i]));
    }
    assert paragraphs[..|paragraphs|] == paragraphs;
    CloseOpen(groups, chunks, currentSentences, currentTokens, max);
    if |currentSentences| > 0 {
      chunks := chunks + [Strip(Join(currentSentences))];
    }
    assert IsChunking(text, Max(1, maxChars), groups, chunks);
    ChunkingIsSound(text, max, groups, chunks);
  }

  lemma {:induction false} ChunkingIsSound(text: Str, max: nat, groups: seq<Group>, chunks: seq<Str>)
    requires max > 0 && IsChunking(text, max, groups, chunks)
    ensures AllTokens(chunks) == Tokens(text)
    ensures forall c | c in chunks :: KeepsSomeLimit(c, max)
  {
    ChunksKeepTokens(text, max, groups);
    ItemsKeepTokens(text);
    GroupsOfGreedy(groups, max);
    forall c | c in chunks ensures KeepsSomeLimit(c, max) {
      ChunksKeepLimits(groups, max, c);
    }
  }

  lemma ParagraphItemsOfAppend(paragraphs: seq<Str>, i: nat)
    requires i < |paragraphs|
    ensures ParagraphItems(paragraphs[..i + 1])
         == ParagraphItems(paragraphs[..i]) + [Break] + SentenceItems(SplitIntoSentences(paragraphs[i]))
  {
    assert paragraphs[..i + 1][..i] == paragraphs[..i];
  }

  lemma EmptyHasNoItems(text: Str)
    requires |text| == 0
    ensures Items(text) == []
  {
    assert Paragraphs(text) == [text] && Strip(text) == [];
    assert [text][1..] == [] && StripAll([text]) == [];
  }

  // -------------------------------------------------------------------------------------------
  // What the packer is given
  // -------------------------------------------------------------------------------------------

  /** The sentences between the marks. */
  function Sections(items: seq<Item>): (sections: seq<seq<Str>>)
    ensures |sections| > 0
  {
    if |items| == 0 then [[]]
    else
      var n := |items| - 1;
      var before := Sections(items[..n]);
      if items[n].Break? then before + [[]]
      else before[..|before| - 1] + [before[|before| - 1] + [items[n].text]]
  }

  lemma {:induction false} SectionsWithMore(items: seq<Item>, sentences: seq<Str>)
    ensures var before := Sections(items);
            Sections(items + SentenceItems(sentences)) == before[..|before| - 1] + [before[|before| - 1] + sentences]
  {
    var before := Sections(items);
    if |sentences| == 0 {
      assert items + [] == items && before[|before| - 1] + [] == before[|before| - 1];
    } else {
      var n := |sentences| - 1;
      var shorter := items + SentenceItems(sentences[..n]);
      SectionsWithMore(items, sentences[..n]);
      assert items + SentenceItems(sentences) == shorter + [Sentence(sentences[n])];
      assert (shorter + [Sentence(sentences[n])])[..|shorter|] == shorter;
      assert (before[|before| - 1] + sentences[..n]) + [sentences[n]] == before[|before| - 1] + sentences;
    }
  }

  lemma SectionsWithParagraph(items: seq<Item>, sentences: seq<Str>)
    ensures Sections(items + [Break] + SentenceItems(sentences)) == Sections(items) + [sentences]
  {
    var marked := items + [Break];
    assert marked[..|items|] == items;
    assert Sections(marked) == Sections(items) + [[]];
    SectionsWithMore(marked, sentences);
    assert [] + sentences == sentences;
  }

  /** The first section is empty, and the others are the sentences of one paragraph each, in order. */
  ghost predicate AreSections(sections: seq<seq<Str>>, paragraphs: seq<Str>) {
    && |sections| == |paragraphs| + 1 && sections[0] == []
    && forall i | 0 <= i < |paragraphs| :: sections[i + 1] == SplitIntoSentences(paragraphs[i])
  }

  lemma {:induction false} SectionsAreParagraphs(paragraphs: seq<Str>)
    ensures AreSections(Sections(ParagraphItems(paragraphs)), paragraphs)
  {
    if |paragraphs| > 0 {
      var n := |paragraphs| - 1;
      SectionsAreParagraphs(paragraphs[..n]);
      SectionsWithParagraph(ParagraphItems(paragraphs[..n]), SplitIntoSentences(paragraphs[n]));
      OneMoreSection(Sections(ParagraphItems(paragraphs[..n])), paragraphs);
    }
  }

  lemma OneMoreSection(sections: seq<seq<Str>>, paragraphs: seq<Str>)
    requires |paragraphs| > 0 && AreSections(sections, paragraphs[..|paragraphs| - 1])
    ensures AreSections(sections + [SplitIntoSentences(paragraphs[|paragraphs| - 1])], paragraphs)
  {
    var n := |paragraphs| - 1;
    forall i | 0 <= i < n ensures sections[i + 1] == SplitIntoSentences(paragraphs[i]) {
      assert paragraphs[..n][i] == paragraphs[i];
    }
  }

  lemma {:induction false} DroppedAreBreaks(items: seq<Item>) returns (k: nat)
    ensures k <= |items| && DropBreaks(items) == items[k..] && forall i | 0 <= i < k :: items[i].Break?
    ensures k < |items| ==> items[k].Sentence?
  {
    if |items| > 0 && items[0].Break? {
      k := DroppedAreBreaks(items[1..]);
      assert items[1..][k..] == items[k + 1..];
      k := k + 1;
    } else {
      k := 0;
      assert items[0..] == items;
    }
  }

  /**
   * The packer is given the sentences of the text, paragraph by paragraph, with one mark between two
   * paragraphs and none before the first sentence.
   */
  lemma ItemsAreExact(text: Str) returns (k: nat, all: seq<Item>)
    ensures k <= |all| && Items(text) == all[k..] && (forall i | 0 <= i < k :: all[i].Break?)
    ensures k < |all| ==> all[k].Sentence?
    ensures AreSections(Sections(all), StripAll(Paragraphs(text)))
  {
    all := ParagraphItems(StripAll(Paragraphs(text)));
    SectionsAreParagraphs(StripAll(Paragraphs(text)));
    k := DroppedAreBreaks(all);
  }

  /** How many items are left without the marks at the end. */
  function LastSentence(g: Group): (n: nat)
    ensures n <= |g| && (forall i | n <= i < |g| :: g[i].Break?) && (n > 0 ==> g[n - 1].Sentence?)
  {
    if |g| > 0 && g[|g| - 1].Break? then LastSentence(g[..|g| - 1]) else |g|
  }

  ghost predicate IsFollowed(core: Str, b: Str, s: Str) {
    AllSpace(b) && s == core + b
  }

  lemma {:induction false} MarksAtTheEnd(g: Group, n: nat)
    requires 0 < n <= |g| && forall i | n <= i < |g| :: g[i].Break?
    ensures exists b :: IsFollowed(Join(TextsOf(g[..n])), b, Join(TextsOf(g)))
    decreases |g|
  {
    if n == |g| {
      assert g[..n] == g;
      assert IsFollowed(Join(TextsOf(g)), [], Join(TextsOf(g)));
    } else {
      var m := |g| - 1;
      MarksAtTheEnd(g[..m], n);
      assert g[..m][..n] == g[..n];
      var b :| IsFollowed(Join(TextsOf(g[..n])), b, Join(TextsOf(g[..m])));
      assert TextsOf(g) == TextsOf(g[..m]) + [TextOf(g[m])];
      TextsLength(g[..m]);
      MarkFollows(Join(TextsOf(g[..n])), b, TextsOf(g[..m]), TextOf(g[m]));
    }
  }

  lemma MarkFollows(core: Str, b: Str, texts: seq<Str>, mark: Str)
    requires |texts| > 0 && IsFollowed(core, b, Join(texts)) && AllSpace(mark)
    ensures IsFollowed(core, b + ([SPACE] + mark), Join(texts + [mark]))
  {
    JoinIsExact(texts, [mark]);
    assert Join([mark]) == mark;
    Regrouped(core, b, [SPACE], mark);
    SpaceAfterSpace(b, [SPACE] + mark);
  }

  lemma Regrouped(a: Str, b: Str, c: Str, d: Str)
    ensures (a + b) + c + d == a + (b + (c + d))
  {
  }

  lemma SpaceAfterSpace(a: Str, b: Str)
    requires AllSpace(a) && AllSpace(b)
    ensures AllSpace(a + b)
  {
  }

  lemma {:induction false} TextsLength(items: seq<Item>)
    ensures |TextsOf(items)| == |items| && forall i | 0 <= i < |items| :: TextsOf(items)[i] == TextOf(items[i])
  {
    if |items| > 0 {
      TextsLength(items[..|items| - 1]);
    }
  }

  lemma JoinOfStripped(texts: seq<Str>)
    requires |texts| > 0 && IsStripped(texts[0]) && IsStripped(texts[|texts| - 1])
    ensures IsStripped(Join(texts))
  {
    var n := |texts| - 1;
    assert [texts[0]] + texts[1..] == texts && texts[..n] + [texts[n]] == texts;
    JoinIsExact([texts[0]], texts[1..]);
    JoinIsExact(texts[..n], [texts[n]]);
  }

  /** The chunk of packed sentences is the sentences as they are, in order, with their marks, joined by spaces. */
  lemma ChunkIsItsSentences(g: Group, max: nat)
    requires max > 0 && IsGroup(g, max) && !IsOversize(g, max) && SentencesAreStripped(g)
    ensures var texts := TextsOf(g[..LastSentence(g)]);
            && RenderedGroup(g, max) == [Join(texts)]
            && |texts| == LastSentence(g) > 0 && forall i | 0 <= i < |texts| :: texts[i] == TextOf(g[i])
  {
    var n := LastSentence(g);
    assert n > 0;
    var core := Join(TextsOf(g[..n]));
    TextsLength(g[..n]);
    assert g[0] in g && g[n - 1] in g;
    JoinOfStripped(TextsOf(g[..n]));
    MarksAtTheEnd(g, n);
    var b :| IsFollowed(core, b, Join(TextsOf(g)));
    StripAfter(core, b);
  }

  lemma StripAfter(s: Str, b: Str)
    requires IsStripped(s) && AllSpace(b)
    ensures Strip(s + b) == s
  {
    assert [] + s + b == s + b;
    BetweenIsStrip([], s, b, s + b);
  }

  // -------------------------------------------------------------------------------------------
  // What the chunks hold
  // -------------------------------------------------------------------------------------------

  function TokensOf(item: Item): seq<Str> {
    if item.Break? then [] else Tokens(item.text)
  }

  function ItemTokens(items: seq<Item>): seq<Str> {
    if |items| == 0 then []
    else ItemTokens(items[..|items| - 1]) + TokensOf(items[|items| - 1])
  }

  lemma {:induction false} ItemTokensOfConcat(a: seq<Item>, b: seq<Item>)
    ensures ItemTokens(a + b) == ItemTokens(a) + ItemTokens(b)
  {
    var both := a + b;
    if |b| == 0 {
      assert both == a;
    } else {
      var m := |b| - 1;
      assert both[..|both| - 1] == a + b[..m] && both[|both| - 1] == b[m];
      ItemTokensOfConcat(a, b[..m]);
      var x, y, z := ItemTokens(a), ItemTokens(b[..m]), TokensOf(b[m]);
      assert (x + y) + z == x + (y + z);
    }
  }

  lemma {:induction false} GroupTextTokens(items: seq<Item>)
    ensures AllTokens(TextsOf(items)) == ItemTokens(items)
    ensures |ItemTokens(items)| == Total(items)
  {
    if |items| > 0 {
      var n := |items| - 1;
      GroupTextTokens(items[..n]);
      AllTokensOfConcat(TextsOf(items[..n]), [TextOf(items[n])]);
      assert [TextOf(items[n])][1..] == [];
      NoWordNoToken([Newline, Newline]);
    }
  }

  ghost predicate SentencesAreStripped(items: seq<Item>) {
    forall i | 0 <= i < |items| && items[i].Sentence? :: IsStripped(items[i].text)
  }

  lemma {:induction false} TextsStartStripped(g: Group)
    requires |g| > 0 && g[0].Sentence? && IsStripped(g[0].text)
    ensures |Join(TextsOf(g))| > 0 && !IsSpace(Join(TextsOf(g))[0])
  {
    FirstText(g);
  }

  lemma {:induction false} FirstText(g: Group)
    requires |g| > 0
    ensures |TextsOf(g)| > 0 && TextsOf(g)[0] == TextOf(g[0])
  {
    var n := |g| - 1;
    if n > 0 {
      FirstText(g[..n]);
    } else {
      SingleItem(g[0]);
      assert g == [g[0]];
    }
  }

  lemma {:induction false} BreaksHaveNoToken(items: seq<Item>)
    requires forall i | 0 <= i < |items| :: items[i].Break?
    ensures ItemTokens(items) == []
  {
    if |items| > 0 {
      BreaksHaveNoToken(items[..|items| - 1]);
    }
  }

  /** A chunk of packed sentences keeps the token limit; a piece of a long sentence keeps it in words. */
  ghost predicate KeepsLimit(chunk: Str, g: Group, max: nat) {
    && IsStripped(chunk)
    && if IsOversize(g, max) then 1 <= |Words(chunk)| <= max else |Tokens(chunk)| <= max
  }

  lemma {:induction false} RenderedGroupIsSound(g: Group, max: nat)
    requires max > 0 && IsGroup(g, max) && SentencesAreStripped(g)
    ensures AllTokens(RenderedGroup(g, max)) == ItemTokens(g)
    ensures forall c | c in RenderedGroup(g, max) :: KeepsLimit(c, g, max)
  {
    if IsOversize(g, max) {
      PiecesAreSound(g, max);
    } else {
      PackedIsSound(g);
      OneText(Strip(Join(TextsOf(g))));
    }
  }

  lemma {:induction false} PiecesAreSound(g: Group, max: nat)
    requires max > 0 && |g| > 0 && g[0].Sentence? && forall i | 0 < i < |g| :: g[i].Break?
    ensures var pieces := Batches(Words(g[0].text), max);
            && AllTokens(pieces) == ItemTokens(g)
            && forall c | c in pieces :: IsStripped(c) && 1 <= |Words(c)| <= max
  {
    WordsKeepTokens(g[0].text);
    BatchesKeepWords(Words(g[0].text), max);
    assert g == [g[0]] + g[1..];
    ItemTokensOfConcat([g[0]], g[1..]);
    BreaksHaveNoToken(g[1..]);
    assert [g[0]][..0] == [];
  }

  lemma {:induction false} PackedIsSound(g: Group)
    requires |g| > 0 && g[0].Sentence? && SentencesAreStripped(g)
    ensures var c := Strip(Join(TextsOf(g)));
            IsStripped(c) && Tokens(c) == ItemTokens(g) && |Tokens(c)| == Total(g)
  {
    TextsStartStripped(g);
    StripKeepsTokens(Join(TextsOf(g)));
    JoinKeepsTokens(TextsOf(g));
    GroupTextTokens(g);
  }

  lemma OneText(t: Str)
    ensures AllTokens([t]) == Tokens(t)
  {
    assert [t][1..] == [];
  }

  lemma {:induction false} RenderedKeepsTokens(groups: seq<Group>, max: nat)
    requires max > 0
    requires forall i | 0 <= i < |groups| :: IsGroup(groups[i], max) && SentencesAreStripped(groups[i])
    ensures AllTokens(Rendered(groups, max)) == ItemTokens(Flatten(groups))
  {
    if |groups| > 0 {
      var n := |groups| - 1;
      RenderedKeepsTokens(groups[..n], max);
      RenderedGroupIsSound(groups[n], max);
      AllTokensOfConcat(Rendered(groups[..n], max), RenderedGroup(groups[n], max));
      ItemTokensOfConcat(Flatten(groups[..n]), groups[n]);
    }
  }

  lemma {:induction false} SentenceItemsTokens(sentences: seq<Str>)
    ensures ItemTokens(SentenceItems(sentences)) == AllTokens(sentences)
    ensures (forall s | s in sentences :: IsStripped(s)) ==> SentencesAreStripped(SentenceItems(sentences))
  {
    if |sentences| > 0 {
      var n := |sentences| - 1;
      SentenceItemsTokens(sentences[..n]);
      AllTokensOfLast(sentences);
      var items := SentenceItems(sentences);
      assert items[..|items| - 1] == SentenceItems(sentences[..n]);
      assert sentences[n] in sentences;
    }
  }

  lemma {:induction false} SentencesOfParagraph(before: seq<Item>, paragraph: Str)
    requires SentencesAreStripped(before)
    ensures var items := before + [Break] + SentenceItems(SplitIntoSentences(paragraph));
            ItemTokens(items) == ItemTokens(before) + Tokens(paragraph) && SentencesAreStripped(items)
  {
    var sentences := SplitIntoSentences(paragraph);
    SentencesKeepTokens(paragraph);
    SentenceItemsTokens(sentences);
    ItemTokensOfConcat(before + [Break], SentenceItems(sentences));
    assert (before + [Break])[..|before|] == before;
    assert ItemTokens(before + [Break]) == ItemTokens(before);
  }

  lemma {:induction false} ParagraphItemsTokens(paragraphs: seq<Str>)
    ensures ItemTokens(ParagraphItems(paragraphs)) == AllTokens(paragraphs)
    ensures SentencesAreStripped(ParagraphItems(paragraphs))
  {
    if |paragraphs| > 0 {
      var n := |paragraphs| - 1;
      ParagraphItemsTokens(paragraphs[..n]);
      SentencesOfParagraph(ParagraphItems(paragraphs[..n]), paragraphs[n]);
      AllTokensOfLast(paragraphs);
    }
  }

  lemma {:induction false} AllTokensOfLast(texts: seq<Str>)
    requires |texts| > 0
    ensures AllTokens(texts) == AllTokens(texts[..|texts| - 1]) + Tokens(texts[|texts| - 1])
  {
    var n := |texts| - 1;
    AllTokensOfConcat(texts[..n], [texts[n]]);
    OneText(texts[n]);
    assert texts == texts[..n] + [texts[n]];
  }

  lemma {:induction false} DropBreaksKeepsTokens(items: seq<Item>)
    requires SentencesAreStripped(items)
    ensures ItemTokens(DropBreaks(items)) == ItemTokens(items) && SentencesAreStripped(DropBreaks(items))
  {
    if |items| > 0 && items[0].Break? {
      DropBreaksKeepsTokens(items[1..]);
      assert items == [items[0]] + items[1..];
      ItemTokensOfConcat([items[0]], items[1..]);
      TokensOfBreak(items[0]);
    }
  }

  lemma TokensOfBreak(item: Item)
    requires item.Break?
    ensures ItemTokens([item]) == []
  {
    assert [item][..0] == [];
  }

  lemma {:induction false} ItemsKeepTokens(text: Str)
    ensures ItemTokens(Items(text)) == Tokens(text) && SentencesAreStripped(Items(text))
  {
    ParagraphsKeepTokens(text);
    StripAllKeepsTokens(Paragraphs(text));
    ParagraphItemsTokens(StripAll(Paragraphs(text)));
    DropBreaksKeepsTokens(ParagraphItems(StripAll(Paragraphs(text))));
  }

  lemma {:induction false} GroupsAreStripped(groups: seq<Group>)
    requires SentencesAreStripped(Flatten(groups))
    ensures forall i | 0 <= i < |groups| :: SentencesAreStripped(groups[i])
  {
    if |groups| > 0 {
      var n := |groups| - 1;
      var flat, before := Flatten(groups), Flatten(groups[..n]);
      assert flat[..|before|] == before && flat[|before|..] == groups[n];
      forall i | 0 <= i < |before| && before[i].Sentence? ensures IsStripped(before[i].text) {
        assert flat[i] == before[i];
      }
      forall i | 0 <= i < |groups[n]| && groups[n][i].Sentence? ensures IsStripped(groups[n][i].text) {
        assert flat[|before| + i] == groups[n][i];
      }
      GroupsAreStripped(groups[..n]);
    }
  }

  /**
   * Conservation: for every text and size, the word tokens of the chunks, read in order, are the
   * word tokens of the text - none lost, none repeated, none moved.
   */
  lemma {:induction false} ChunksKeepTokens(text: Str, max: nat, groups: seq<Group>)
    requires max > 0 && IsGreedy(groups, max) && Flatten(groups) == Items(text)
    ensures AllTokens(Rendered(groups, max)) == Tokens(text)
  {
    ItemsKeepTokens(text);
    GroupsAreStripped(groups);
    GroupsOfGreedy(groups, max);
    RenderedKeepsTokens(groups, max);
  }

  lemma {:induction false} ChunkOfGroup(groups: seq<Group>, max: nat, chunk: Str) returns (k: nat)
    requires max > 0 && chunk in Rendered(groups, max)
    ensures k < |groups| && chunk in RenderedGroup(groups[k], max)
  {
    var n := |groups| - 1;
    if chunk in RenderedGroup(groups[n], max) {
      k := n;
    } else {
      k := ChunkOfGroup(groups[..n], max, chunk);
    }
  }

  /** Every chunk comes from one group, is not empty and keeps that group's limit. */
  lemma {:induction false} ChunksKeepLimits(groups: seq<Group>, max: nat, chunk: Str)
    requires max > 0 && SentencesAreStripped(Flatten(groups))
    requires forall i | 0 <= i < |groups| :: IsGroup(groups[i], max)
    requires chunk in Rendered(groups, max)
    ensures exists g :: g in groups && KeepsLimit(chunk, g, max)
  {
    var k := ChunkOfGroup(groups, max, chunk);
    GroupsAreStripped(groups);
    RenderedGroupIsSound(groups[k], max);
    assert groups[k] in groups && KeepsLimit(chunk, groups[k], max);
  }
}
