/**
 * Texts as the chunker of runner/rag_helper.py sees them: characters by class, the word tokens of
 * a text, stripping, whitespace splitting and joining.
 */
module WordTokens {

  /** A character by what the chunker's patterns can tell about it; `code` is which one it is. */
  datatype Ch =
    | Word(code: int)   // matches \w
    | Blank(code: int)  // whitespace other than a newline
    | Newline
    | Stop(code: int)   // . ! ?
    | Quote(code: int)  // closing quotation marks
    | Mark(code: int)   // anything else

  type Str = seq<Ch>

  const SPACE: Ch := Blank(32)

  predicate IsSpace(c: Ch) { c.Blank? || c.Newline? }

  // -------------------------------------------------------------------------------------------
  // Word tokens
  // -------------------------------------------------------------------------------------------

  /** The length of the leading run of word characters. */
  function WordRun(s: Str): (n: nat)
    ensures n <= |s|
    ensures forall i | 0 <= i < n :: s[i].Word?
    ensures n < |s| ==> !s[n].Word?
  {
    if |s| > 0 && s[0].Word? then 1 + WordRun(s[1..]) else 0
  }

  /** re.findall(r"\w+", s): the maximal runs of word characters. */
  function Tokens(s: Str): seq<Str>
    decreases |s|
  {
    if |s| == 0 then []
    else if !s[0].Word? then Tokens(s[1..])
    else [s[..WordRun(s)]] + Tokens(s[WordRun(s)..])
  }

  lemma WordRunIsMaximal(s: Str, n: nat)
    requires n <= |s| && (forall i | 0 <= i < n :: s[i].Word?) && (n < |s| ==> !s[n].Word?)
    ensures WordRun(s) == n
  {
  }

  ghost predicate SplitsNoToken(a: Str, b: Str) {
    |a| > 0 && |b| > 0 ==> !a[|a| - 1].Word? || !b[0].Word?
  }

  /** Where no word run crosses the seam, the tokens of a text are those of its parts. */
  lemma {:induction false} TokensOfConcat(a: Str, b: Str)
    requires SplitsNoToken(a, b)
    ensures Tokens(a + b) == Tokens(a) + Tokens(b)
    decreases |a|
  {
    var s := a + b;
    if |a| == 0 {
      assert s == b;
    } else if !a[0].Word? {
      assert s[1..] == a[1..] + b;
      TokensOfConcat(a[1..], b);
    } else {
      var n := WordRun(a);
      WordRunIsMaximal(s, n);
      assert s[..n] == a[..n] && s[n..] == a[n..] + b;
      TokensOfConcat(a[n..], b);
    }
  }

  lemma {:induction false} NoWordNoToken(s: Str)
    requires forall i | 0 <= i < |s| :: !s[i].Word?
    ensures Tokens(s) == []
  {
    if |s| > 0 {
      NoWordNoToken(s[1..]);
    }
  }

  /** A part without word characters between two others costs no token. */
  lemma {:induction false} TokensAround(a: Str, gap: Str, b: Str)
    requires |gap| > 0 && forall i | 0 <= i < |gap| :: !gap[i].Word?
    ensures Tokens(a + gap + b) == Tokens(a) + Tokens(b)
  {
    NoWordNoToken(gap);
    TokensOfConcat(a + gap, b);
    TokensOfConcat(a, gap);
  }

  /** All tokens of a list of texts, in order. */
  function AllTokens(texts: seq<Str>): seq<Str> {
    if |texts| == 0 then [] else Tokens(texts[0]) + AllTokens(texts[1..])
  }

  lemma {:induction false} AllTokensOfConcat(a: seq<Str>, b: seq<Str>)
    ensures AllTokens(a + b) == AllTokens(a) + AllTokens(b)
  {
    var both := a + b;
    if |a| == 0 {
      assert both == b;
    } else {
      assert both[0] == a[0] && both[1..] == a[1..] + b;
      AllTokensOfConcat(a[1..], b);
      var head, tail := Tokens(a[0]), AllTokens(a[1..]);
      assert head + (tail + AllTokens(b)) == (head + tail) + AllTokens(b);
    }
  }

  // -------------------------------------------------------------------------------------------
  // Stripping
  // -------------------------------------------------------------------------------------------

  function StripLeft(s: Str): Str {
    if |s| > 0 && IsSpace(s[0]) then StripLeft(s[1..]) else s
  }

  function StripRight(s: Str): Str {
    if |s| > 0 && IsSpace(s[|s| - 1]) then StripRight(s[..|s| - 1]) else s
  }

  function Strip(s: Str): Str { StripRight(StripLeft(s)) }

  ghost predicate IsStripped(s: Str) {
    |s| > 0 && !IsSpace(s[0]) && !IsSpace(s[|s| - 1])
  }

  lemma {:induction false} StripLeftKeepsTokens(s: Str)
    ensures Tokens(StripLeft(s)) == Tokens(s)
    ensures var r := StripLeft(s); |r| > 0 ==> !IsSpace(r[0])
  {
    if |s| > 0 && IsSpace(s[0]) {
      StripLeftKeepsTokens(s[1..]);
    }
  }

  lemma {:induction false} StripRightKeepsTokens(s: Str)
    ensures Tokens(StripRight(s)) == Tokens(s)
    ensures StripRight(s) <= s
    ensures var r := StripRight(s); |r| > 0 ==> !IsSpace(r[|r| - 1])
    ensures |s| > 0 && !IsSpace(s[0]) ==> |StripRight(s)| > 0
  {
    if |s| > 0 && IsSpace(s[|s| - 1]) {
      var n := |s| - 1;
      StripRightKeepsTokens(s[..n]);
      assert s == s[..n] + [s[n]];
      TokensOfConcat(s[..n], [s[n]]);
      NoWordNoToken([s[n]]);
    }
  }

  lemma {:induction false} StripKeepsTokens(s: Str)
    ensures Tokens(Strip(s)) == Tokens(s)
    ensures Strip(s) == [] || IsStripped(Strip(s))
    ensures |s| > 0 && !IsSpace(s[0]) ==> IsStripped(Strip(s))
  {
    StripLeftKeepsTokens(s);
    StripRightKeepsTokens(StripLeft(s));
  }

  /** [t.strip() for t in texts if t.strip()] */
  function StripAll(texts: seq<Str>): seq<Str> {
    if |texts| == 0 then []
    else (if |Strip(texts[0])| > 0 then [Strip(texts[0])] else []) + StripAll(texts[1..])
  }

  lemma {:induction false} StripAllKeepsTokens(texts: seq<Str>)
    ensures AllTokens(StripAll(texts)) == AllTokens(texts)
    ensures forall t | t in StripAll(texts) :: IsStripped(t)
  {
    if |texts| > 0 {
      StripAllKeepsTokens(texts[1..]);
      var t := Strip(texts[0]);
      StripKeepsTokens(texts[0]);
      if |t| > 0 {
        assert StripAll(texts) == [t] + StripAll(texts[1..]);
        assert StripAll(texts)[1..] == StripAll(texts[1..]);
      } else {
        assert StripAll(texts) == StripAll(texts[1..]);
      }
    }
  }

  // -------------------------------------------------------------------------------------------
  // Joining and whitespace splitting
  // -------------------------------------------------------------------------------------------

  /** " ".join(texts) */
  function Join(texts: seq<Str>): Str {
    if |texts| == 0 then []
    else if |texts| == 1 then texts[0]
    else texts[0] + [SPACE] + Join(texts[1..])
  }

  lemma {:induction false} JoinKeepsTokens(texts: seq<Str>)
    ensures Tokens(Join(texts)) == AllTokens(texts)
  {
    if |texts| > 0 {
      JoinKeepsTokens(texts[1..]);
      if |texts| > 1 {
        TokensAround(texts[0], [SPACE], Join(texts[1..]));
      }
    }
  }

  /** The length of the leading run without whitespace. */
  function SolidRun(s: Str): (n: nat)
    ensures n <= |s|
    ensures forall i | 0 <= i < n :: !IsSpace(s[i])
    ensures n < |s| ==> IsSpace(s[n])
  {
    if |s| > 0 && !IsSpace(s[0]) then 1 + SolidRun(s[1..]) else 0
  }

  /** s.split(): the maximal runs without whitespace. */
  function Words(s: Str): seq<Str>
    decreases |s|
  {
    if |s| == 0 then []
    else if IsSpace(s[0]) then Words(s[1..])
    else [s[..SolidRun(s)]] + Words(s[SolidRun(s)..])
  }

  ghost predicate IsWord(w: Str) {
    |w| > 0 && forall i | 0 <= i < |w| :: !IsSpace(w[i])
  }

  lemma {:induction false} WordsKeepTokens(s: Str)
    ensures AllTokens(Words(s)) == Tokens(s)
    ensures forall w | w in Words(s) :: IsWord(w)
    decreases |s|
  {
    if |s| == 0 {
    } else if IsSpace(s[0]) {
      WordsKeepTokens(s[1..]);
    } else {
      var n := SolidRun(s);
      WordsKeepTokens(s[n..]);
      assert s == s[..n] + s[n..];
      TokensOfConcat(s[..n], s[n..]);
      assert Words(s)[1..] == Words(s[n..]);
    }
  }

  lemma SolidRunIsMaximal(s: Str, n: nat)
    requires n <= |s| && (forall i | 0 <= i < n :: !IsSpace(s[i])) && (n < |s| ==> IsSpace(s[n]))
    ensures SolidRun(s) == n
  {
  }

  /** Joining words and splitting again gives the words back. */
  lemma {:induction false} WordsOfJoin(words: seq<Str>)
    requires forall w | w in words :: IsWord(w)
    ensures Words(Join(words)) == words
  {
    if |words| > 0 {
      var w := words[0];
      var s := Join(words);
      assert w in words;
      assert s[..|w|] == w;
      SolidRunIsMaximal(s, |w|);
      if |words| == 1 {
        assert s[|w|..] == [];
      } else {
        WordsOfJoin(words[1..]);
        var rest := Join(words[1..]);
        assert s[|w|..] == [SPACE] + rest;
        assert s[|w|..][1..] == rest;
        assert Words(s[|w|..]) == Words(rest);
      }
      assert words == [w] + words[1..];
    }
  }

  // -------------------------------------------------------------------------------------------
  // What the functions above find, said without them
  // -------------------------------------------------------------------------------------------

  predicate IsWordCh(c: Ch) { c.Word? }

  predicate IsSolidCh(c: Ch) { !IsSpace(c) }

  /** `w` is the longest beginning of `s` whose characters are all in the class. */
  ghost predicate IsRun(s: Str, w: Str, class_: Ch -> bool) {
    && 0 < |w| <= |s| && s[..|w|] == w
    && (forall i | 0 <= i < |w| :: class_(w[i])) && (|w| < |s| ==> !class_(s[|w|]))
  }

  ghost predicate IsOutside(s: Str, class_: Ch -> bool) {
    forall i | 0 <= i < |s| :: !class_(s[i])
  }

  /** `s` is the runs of the class with the gaps before, between and after them, each run as long as it can be. */
  ghost predicate Alternate(s: Str, gaps: seq<Str>, runs: seq<Str>, class_: Ch -> bool)
    decreases |runs|
  {
    && |gaps| == |runs| + 1 && gaps[0] <= s && IsOutside(gaps[0], class_)
    && var rest := s[|gaps[0]|..];
       if |runs| == 0 then rest == []
       else IsRun(rest, runs[0], class_) && Alternate(rest[|runs[0]|..], gaps[1..], runs[1..], class_)
  }

  /** The runs are the maximal runs of the class in `s`, in order. */
  ghost predicate AreRuns(s: Str, runs: seq<Str>, class_: Ch -> bool) {
    exists gaps :: IsReading(s, gaps, runs, class_)
  }

  /** With these gaps. */
  ghost predicate IsReading(s: Str, gaps: seq<Str>, runs: seq<Str>, class_: Ch -> bool) {
    Alternate(s, gaps, runs, class_)
  }

  lemma RunsSkip(s: Str, gaps: seq<Str>, runs: seq<Str>, class_: Ch -> bool)
    requires |s| > 0 && !class_(s[0]) && Alternate(s[1..], gaps, runs, class_)
    ensures Alternate(s, [[s[0]] + gaps[0]] + gaps[1..], runs, class_)
  {
    var gap := [s[0]] + gaps[0];
    var more := [gap] + gaps[1..];
    assert s == [s[0]] + s[1..];
    assert s[|gap|..] == s[1..][|gaps[0]|..];
    assert more[1..] == gaps[1..];
  }

  lemma RunsTake(s: Str, n: nat, gaps: seq<Str>, runs: seq<Str>, class_: Ch -> bool)
    requires n <= |s| && IsRun(s, s[..n], class_) && Alternate(s[n..], gaps, runs, class_)
    ensures Alternate(s, [[]] + gaps, [s[..n]] + runs, class_)
  {
    assert s[0..] == s && ([[]] + gaps)[1..] == gaps && ([s[..n]] + runs)[1..] == runs;
  }

  lemma {:induction false} TokensAreRuns(s: Str) returns (gaps: seq<Str>)
    ensures Alternate(s, gaps, Tokens(s), IsWordCh)
    decreases |s|
  {
    if |s| == 0 {
      gaps := [[]];
    } else if !s[0].Word? {
      var later := TokensAreRuns(s[1..]);
      gaps := [[s[0]] + later[0]] + later[1..];
      RunsSkip(s, later, Tokens(s), IsWordCh);
    } else {
      var n := WordRun(s);
      var later := TokensAreRuns(s[n..]);
      gaps := [[]] + later;
      RunsTake(s, n, later, Tokens(s[n..]), IsWordCh);
    }
  }

  lemma FirstToken(gap: Str, rest: Str, w: Str)
    requires IsOutside(gap, IsWordCh) && IsRun(rest, w, IsWordCh)
    ensures Tokens(gap + rest) == [w] + Tokens(rest[|w|..])
  {
    NoWordNoToken(gap);
    TokensOfConcat(gap, rest);
    assert forall i | 0 <= i < |w| :: rest[i] == w[i];
    WordRunIsMaximal(rest, |w|);
  }

  lemma {:induction false} RunsAreTokens(s: Str, gaps: seq<Str>, runs: seq<Str>)
    requires Alternate(s, gaps, runs, IsWordCh)
    ensures runs == Tokens(s)
    decreases |runs|
  {
    var gap := gaps[0];
    var rest := s[|gap|..];
    assert s == gap + rest;
    if |runs| > 0 {
      FirstToken(gap, rest, runs[0]);
      RunsAreTokens(rest[|runs[0]|..], gaps[1..], runs[1..]);
      assert runs == [runs[0]] + runs[1..];
    } else {
      NoWordNoToken(s);
    }
  }

  /** The tokens of a text are the maximal runs of word characters in it, and no other list is. */
  lemma TokensAreExact(s: Str, runs: seq<Str>)
    ensures AreRuns(s, runs, IsWordCh) <==> runs == Tokens(s)
  {
    var found := TokensAreRuns(s);
    assert IsReading(s, found, Tokens(s), IsWordCh);
    if gaps :| IsReading(s, gaps, runs, IsWordCh) {
      RunsAreTokens(s, gaps, runs);
    }
  }

  lemma {:induction false} WordsAreRuns(s: Str) returns (gaps: seq<Str>)
    ensures Alternate(s, gaps, Words(s), IsSolidCh)
    decreases |s|
  {
    if |s| == 0 {
      gaps := [[]];
    } else if IsSpace(s[0]) {
      var later := WordsAreRuns(s[1..]);
      gaps := [[s[0]] + later[0]] + later[1..];
      RunsSkip(s, later, Words(s), IsSolidCh);
    } else {
      var n := SolidRun(s);
      var later := WordsAreRuns(s[n..]);
      gaps := [[]] + later;
      RunsTake(s, n, later, Words(s[n..]), IsSolidCh);
    }
  }

  lemma {:induction false} WordsAfterSpace(a: Str, s: Str)
    requires AllSpace(a)
    ensures Words(a + s) == Words(s)
  {
    if |a| == 0 {
      assert a + s == s;
    } else {
      assert (a + s)[1..] == a[1..] + s;
      WordsAfterSpace(a[1..], s);
    }
  }

  lemma {:induction false} RunsAreWords(s: Str, gaps: seq<Str>, runs: seq<Str>)
    requires Alternate(s, gaps, runs, IsSolidCh)
    ensures runs == Words(s)
    decreases |runs|
  {
    var gap := gaps[0];
    var rest := s[|gap|..];
    WordsAfterSpace(gap, rest);
    assert s == gap + rest;
    if |runs| > 0 {
      var w := runs[0];
      assert w == rest[..|w|];
      SolidRunIsMaximal(rest, |w|);
      RunsAreWords(rest[|w|..], gaps[1..], runs[1..]);
      assert runs == [w] + runs[1..];
    }
  }

  /** The words of a text are the maximal runs without whitespace, and no other list is. */
  lemma WordsAreExact(s: Str, runs: seq<Str>)
    ensures AreRuns(s, runs, IsSolidCh) <==> runs == Words(s)
  {
    var found := WordsAreRuns(s);
    assert IsReading(s, found, Words(s), IsSolidCh);
    if gaps :| IsReading(s, gaps, runs, IsSolidCh) {
      RunsAreWords(s, gaps, runs);
    }
  }

  ghost predicate AllSpace(s: Str) {
    forall i | 0 <= i < |s| :: IsSpace(s[i])
  }

  /** `r` stands in `s` between whitespace, and neither begins nor ends with any. */
  ghost predicate IsStripOf(r: Str, s: Str) {
    (|r| == 0 || IsStripped(r)) && exists a, b :: IsBetween(a, r, b, s)
  }

  ghost predicate IsBetween(a: Str, r: Str, b: Str, s: Str) {
    AllSpace(a) && AllSpace(b) && s == a + r + b
  }

  lemma {:induction false} StripLeftOf(a: Str, s: Str)
    requires AllSpace(a)
    ensures StripLeft(a + s) == StripLeft(s)
  {
    if |a| == 0 {
      assert a + s == s;
    } else {
      assert (a + s)[1..] == a[1..] + s;
      StripLeftOf(a[1..], s);
    }
  }

  lemma {:induction false} StripRightOf(s: Str, b: Str)
    requires AllSpace(b)
    ensures StripRight(s + b) == StripRight(s)
  {
    if |b| == 0 {
      assert s + b == s;
    } else {
      var n := |b| - 1;
      assert (s + b)[..|s| + n] == s + b[..n];
      StripRightOf(s, b[..n]);
    }
  }

  lemma {:induction false} SpaceStripsToNothing(a: Str)
    requires AllSpace(a)
    ensures StripLeft(a) == []
  {
    if |a| > 0 {
      SpaceStripsToNothing(a[1..]);
    }
  }

  lemma {:induction false} LeftPart(s: Str) returns (a: Str)
    ensures AllSpace(a) && s == a + StripLeft(s)
  {
    if |s| > 0 && IsSpace(s[0]) {
      var rest := LeftPart(s[1..]);
      a := [s[0]] + rest;
    } else {
      a := [];
    }
  }

  lemma {:induction false} RightPart(s: Str) returns (b: Str)
    ensures AllSpace(b) && s == StripRight(s) + b
  {
    var n := |s| - 1;
    if |s| > 0 && IsSpace(s[n]) {
      var rest := RightPart(s[..n]);
      b := rest + [s[n]];
      assert s == s[..n] + [s[n]];
    } else {
      b := [];
    }
  }

  lemma StripIsBetween(s: Str)
    ensures IsStripOf(Strip(s), s)
  {
    StripKeepsTokens(s);
    var a := LeftPart(s);
    var b := RightPart(StripLeft(s));
    assert a + (Strip(s) + b) == a + Strip(s) + b;
    assert IsBetween(a, Strip(s), b, s);
  }

  lemma BetweenIsStrip(a: Str, r: Str, b: Str, s: Str)
    requires IsBetween(a, r, b, s) && (|r| == 0 || IsStripped(r))
    ensures r == Strip(s)
  {
    assert s == a + (r + b);
    StripLeftOf(a, r + b);
    if |r| == 0 {
      assert r + b == b;
      SpaceStripsToNothing(b);
    } else {
      assert StripLeft(r + b) == r + b;
      StripRightOf(r, b);
    }
  }

  /** Stripping takes away the whitespace at both ends and nothing else. */
  lemma StripIsExact(s: Str, r: Str)
    ensures IsStripOf(r, s) <==> r == Strip(s)
  {
    StripIsBetween(s);
    if IsStripOf(r, s) {
      var a, b :| IsBetween(a, r, b, s);
      BetweenIsStrip(a, r, b, s);
    }
  }

  lemma StripsToNothingIff(t: Str)
    ensures Strip(t) == [] <==> AllSpace(t)
  {
    StripIsBetween(t);
    if Strip(t) == [] {
      var a, b :| IsBetween(a, Strip(t), b, t);
      assert t == a + b;
    } else {
      var a, b :| IsBetween(a, Strip(t), b, t);
      assert t[|a|] == Strip(t)[0];
    }
  }

  /** Text by text, in order, and the texts that are only whitespace are dropped. */
  lemma {:induction false} StripAllIsExact(a: seq<Str>, t: Str, b: seq<Str>)
    ensures StripAll(a + [t] + b) == StripAll(a) + (if AllSpace(t) then [] else [Strip(t)]) + StripAll(b)
  {
    var all := a + [t] + b;
    if |a| == 0 {
      assert all[0] == t && all[1..] == b;
      StripsToNothingIff(t);
    } else {
      assert all[0] == a[0] && all[1..] == a[1..] + [t] + b;
      StripAllIsExact(a[1..], t, b);
    }
  }

  /** Joined texts stand in their order with one space between them. */
  lemma {:induction false} JoinIsExact(a: seq<Str>, b: seq<Str>)
    ensures Join([]) == [] && (forall t :: Join([t]) == t)
    ensures |a| > 0 && |b| > 0 ==> Join(a + b) == Join(a) + [SPACE] + Join(b)
  {
    if |a| > 0 && |b| > 0 {
      var all := a + b;
      assert all[0] == a[0] && all[1..] == a[1..] + b;
      if |a| == 1 {
        assert all[1..] == b;
      } else {
        JoinIsExact(a[1..], b);
      }
    }
  }
}
