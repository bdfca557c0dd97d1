/**
 * runner/rag_helper.py: when the size of a chunk bounds its tokens. A sentence too long for a chunk is
 * cut by words, so the bound hangs on how many tokens a word holds.
 */
module ChunkLimits {
  import opened WordTokens
  import opened Chunker

  // -------------------------------------------------------------------------------------------
  // The pieces of one sentence
  // -------------------------------------------------------------------------------------------

  ghost predicate AreSimple(words: seq<Str>) {
    forall w | w in words :: |Tokens(w)| <= 1
  }

  ghost predicate KeepTokenLimit(chunks: seq<Str>, max: nat) {
    forall c | c in chunks :: |Tokens(c)| <= max
  }

  lemma {:induction false} AllTokensAtMostOneEach(words: seq<Str>)
    requires AreSimple(words)
    ensures |AllTokens(words)| <= |words|
  {
    if |words| > 0 {
      assert words[0] in words;
      AllTokensAtMostOneEach(words[1..]);
    }
  }

  /** Where no word holds two tokens, a piece is within the limit in tokens as it is in words. */
  lemma {:induction false} SimpleWordsKeepTokenLimit(words: seq<Str>, max: nat)
    requires max > 0 && AreSimple(words)
    ensures KeepTokenLimit(Batches(words, max), max)
    decreases |words|
  {
    if |words| > 0 {
      var n := Min(max, |words|);
      JoinKeepsTokens(words[..n]);
      AllTokensAtMostOneEach(words[..n]);
      SimpleWordsKeepTokenLimit(words[n..], max);
    }
  }

  /** At size one every word is a piece. */
  lemma {:induction false} PiecesOfOne(words: seq<Str>)
    ensures Batches(words, 1) == words
    decreases |words|
  {
    if |words| > 0 {
      PiecesOfOne(words[1..]);
      assert words[..1] == [words[0]];
    }
  }

  /** The pieces of a sentence keep every limit in tokens if and only if no word of it holds two. */
  lemma PiecesKeepTokenLimitIff(words: seq<Str>)
    ensures (forall max: nat | max > 0 :: KeepTokenLimit(Batches(words, max), max)) <==> AreSimple(words)
  {
    if AreSimple(words) {
      forall max: nat | max > 0 ensures KeepTokenLimit(Batches(words, max), max) {
        SimpleWordsKeepTokenLimit(words, max);
      }
    } else {
      PiecesOfOne(words);
      assert !KeepTokenLimit(Batches(words, 1), 1);
    }
  }

  // -------------------------------------------------------------------------------------------
  // The chunks of a text
  // -------------------------------------------------------------------------------------------

  /** There is a greedy partition of any list of items that starts with a sentence. */
  lemma {:induction false} GreedyExists(items: seq<Item>, max: nat) returns (groups: seq<Group>)
    requires max > 0 && (|items| > 0 ==> items[0].Sentence?)
    ensures IsGreedy(groups, max) && Flatten(groups) == items
    decreases |items|
  {
    if |items| == 0 {
      groups := [];
    } else {
      var n := |items| - 1;
      var item := items[n];
      groups := GreedyExists(items[..n], max);
      assert items == items[..n] + [item];
      if |groups| == 0 {
        AddGroup(groups, item, max);
        groups := groups + [[item]];
      } else {
        var g := groups[|groups| - 1];
        if item.Break? || (!IsOversize(g, max) && Total(g) + Size(item) <= max) {
          GrowLast(groups, item, max);
          groups := Grown(groups, item);
        } else {
          AddGroup(groups, item, max);
          groups := groups + [[item]];
        }
      }
    }
  }

  lemma {:induction false} DropBreaksStarts(items: seq<Item>)
    ensures |DropBreaks(items)| > 0 ==> DropBreaks(items)[0].Sentence?
  {
    if |items| > 0 && items[0].Break? {
      DropBreaksStarts(items[1..]);
    }
  }

  /** Every text has a chunking at every size. */
  lemma ChunkingExists(text: Str, max: nat) returns (groups: seq<Group>)
    requires max > 0
    ensures IsChunking(text, max, groups, Rendered(groups, max))
  {
    DropBreaksStarts(ParagraphItems(StripAll(Paragraphs(text))));
    groups := GreedyExists(Items(text), max);
  }

  function Concat(parts: seq<seq<Str>>): seq<Str> {
    if |parts| == 0 then [] else Concat(parts[..|parts| - 1]) + parts[|parts| - 1]
  }

  lemma {:induction false} InConcat(parts: seq<seq<Str>>, k: nat, chunk: Str)
    requires k < |parts| && chunk in parts[k]
    ensures chunk in Concat(parts)
  {
    var n := |parts| - 1;
    if k < n {
      InConcat(parts[..n], k, chunk);
    }
  }

  function Parts(groups: seq<Group>, max: nat): seq<seq<Str>>
    requires max > 0
  {
    seq(|groups|, i requires 0 <= i < |groups| => RenderedGroup(groups[i], max))
  }

  lemma {:induction false} RenderedIsConcat(groups: seq<Group>, max: nat)
    requires max > 0
    ensures Rendered(groups, max) == Concat(Parts(groups, max))
  {
    if |groups| > 0 {
      var n := |groups| - 1;
      RenderedIsConcat(groups[..n], max);
      assert Parts(groups, max)[..n] == Parts(groups[..n], max);
    }
  }

  lemma GroupIsRendered(groups: seq<Group>, max: nat, k: nat, chunk: Str)
    requires max > 0 && k < |groups| && chunk in RenderedGroup(groups[k], max)
    ensures chunk in Rendered(groups, max)
  {
    RenderedIsConcat(groups, max);
    InConcat(Parts(groups, max), k, chunk);
  }

  lemma {:induction false} InFlatten(groups: seq<Group>, k: nat, i: nat)
    requires k < |groups| && i < |groups[k]|
    ensures groups[k][i] in Flatten(groups)
  {
    var n := |groups| - 1;
    if k < n {
      InFlatten(groups[..n], k, i);
    }
  }

  lemma {:induction false} FromFlatten(groups: seq<Group>, item: Item) returns (k: nat, i: nat)
    requires item in Flatten(groups)
    ensures k < |groups| && i < |groups[k]| && groups[k][i] == item
  {
    var n := |groups| - 1;
    if item in groups[n] {
      k := n;
      i :| 0 <= i < |groups[n]| && groups[n][i] == item;
    } else {
      k, i := FromFlatten(groups[..n], item);
    }
  }

  /** No word of any sentence of the text holds two tokens. */
  ghost predicate HasSimpleWords(text: Str) {
    forall item | item in Items(text) && item.Sentence? :: AreSimple(Words(item.text))
  }

  /** At every size, every chunk the text is cut into has at most that many tokens. */
  ghost predicate KeepsEveryTokenLimit(text: Str) {
    forall max: nat, groups, chunks | max > 0 && IsChunking(text, max, groups, chunks) :: KeepTokenLimit(chunks, max)
  }

  lemma SimpleTextKeepsLimit(text: Str, max: nat, groups: seq<Group>, chunks: seq<Str>)
    requires max > 0 && IsChunking(text, max, groups, chunks) && HasSimpleWords(text)
    ensures KeepTokenLimit(chunks, max)
  {
    GroupsOfGreedy(groups, max);
    ItemsKeepTokens(text);
    GroupsAreStripped(groups);
    forall c | c in chunks ensures |Tokens(c)| <= max {
      var k := ChunkOfGroup(groups, max, c);
      var g := groups[k];
      RenderedGroupIsSound(g, max);
      if IsOversize(g, max) {
        InFlatten(groups, k, 0);
        SimpleWordsKeepTokenLimit(Words(g[0].text), max);
      }
    }
  }

  lemma {:induction false} TokensOfOne(texts: seq<Str>, t: Str)
    requires t in texts
    ensures |Tokens(t)| <= |AllTokens(texts)|
  {
    if t != texts[0] {
      TokensOfOne(texts[1..], t);
    }
  }

  lemma {:induction false} SizeOfOne(items: seq<Item>, i: nat)
    requires i < |items|
    ensures Size(items[i]) <= Total(items)
  {
    var n := |items| - 1;
    if i < n {
      SizeOfOne(items[..n], i);
    }
  }

  /** A word of two tokens comes out as a chunk of its own at size one. */
  lemma WordIsChunk(text: Str, item: Item, w: Str, groups: seq<Group>)
    requires item in Items(text) && item.Sentence? && w in Words(item.text) && |Tokens(w)| > 1
    requires IsChunking(text, 1, groups, Rendered(groups, 1))
    ensures w in Rendered(groups, 1)
  {
    WordsKeepTokens(item.text);
    TokensOfOne(Words(item.text), w);
    var k, i := FromFlatten(groups, item);
    var g := groups[k];
    GroupsOfGreedy(groups, 1);
    SizeOfOne(g, i);
    assert g[0] == item;
    PiecesOfOne(Words(item.text));
    GroupIsRendered(groups, 1, k, w);
  }

  /**
   * The promise that no chunk has more tokens than its size, exactly: it holds of a text at every
   * size if and only if no word of the text's sentences holds two tokens.
   */
  lemma ChunksKeepTokenLimitIff(text: Str)
    ensures KeepsEveryTokenLimit(text) <==> HasSimpleWords(text)
  {
    if HasSimpleWords(text) {
      forall max: nat, groups, chunks | max > 0 && IsChunking(text, max, groups, chunks)
        ensures KeepTokenLimit(chunks, max)
      {
        SimpleTextKeepsLimit(text, max, groups, chunks);
      }
    } else {
      var item :| item in Items(text) && item.Sentence? && !AreSimple(Words(item.text));
      var w :| w in Words(item.text) && |Tokens(w)| > 1;
      var groups := ChunkingExists(text, 1);
      WordIsChunk(text, item, w, groups);
      assert !KeepTokenLimit(Rendered(groups, 1), 1);
    }
  }

  // -------------------------------------------------------------------------------------------
  // A hyphenated word
  // -------------------------------------------------------------------------------------------

  function Hyphenated(a: int, b: int, dash: int): Str {
    [Word(a), Mark(dash), Word(b)]
  }

  lemma HyphenatedIsOneWord(a: int, b: int, dash: int)
    ensures var s := Hyphenated(a, b, dash); Words(s) == [s] && |Tokens(s)| == 2
  {
    var s := Hyphenated(a, b, dash);
    SolidRunIsMaximal(s, 3);
    assert s[..3] == s && |s[3..]| == 0;
    TokensAround([Word(a)], [Mark(dash)], [Word(b)]);
    assert [Word(a)] + [Mark(dash)] + [Word(b)] == s;
    WordRunIsMaximal([Word(a)], 1);
    WordRunIsMaximal([Word(b)], 1);
  }

  /** Words and marks only: no whitespace, no stop, no quotation mark. */
  predicate IsPlain(s: Str) {
    |s| > 0 && forall i | 0 <= i < |s| :: s[i].Word? || s[i].Mark?
  }

  lemma PlainIsOneParagraph(s: Str)
    requires IsPlain(s)
    ensures Strip(s) == s && StripAll([s]) == [s] && StripAll(Paragraphs(s)) == [s]
  {
    var none: seq<Str> := [];
    assert FirstBreak(s, 0) == |s|;
    assert [s][1..] == none;
    assert StripAll([s]) == [s] + StripAll(none);
  }

  lemma PlainIsOneSentence(s: Str)
    requires IsPlain(s)
    ensures SplitIntoSentences(s) == [s]
  {
    PlainIsOneParagraph(s);
    assert Unwrapped(s) == s;
    assert BodyRun(s, 0) == |s|;
    assert s[..|s|] == s && |s[|s|..]| == 0;
    assert FindSentences(s) == [s];
  }

  lemma PlainIsOneItem(s: Str)
    requires IsPlain(s)
    ensures Items(s) == [Sentence(s)]
  {
    PlainIsOneParagraph(s);
    PlainIsOneSentence(s);
    ItemsOfOneParagraph(s, s);
    DropFirstBreak([Sentence(s)]);
  }

  lemma ItemsOfOneParagraph(paragraph: Str, sentence: Str)
    requires SplitIntoSentences(paragraph) == [sentence]
    ensures ParagraphItems([paragraph]) == [Break] + [Sentence(sentence)]
  {
    var none: seq<Str> := [];
    assert [paragraph][..0] == none && [sentence][..0] == none;
    assert ParagraphItems(none) == [] && SentenceItems(none) == [];
    assert SentenceItems([sentence]) == [Sentence(sentence)];
  }

  lemma DropFirstBreak(items: seq<Item>)
    requires |items| > 0 && items[0].Sentence?
    ensures DropBreaks([Break] + items) == items
  {
    assert ([Break] + items)[1..] == items;
  }

  /** The text that is one hyphenated word is, at size one, a single chunk of two tokens. */
  lemma OneWordOfTwoTokens(a: int, b: int, dash: int, groups: seq<Group>, chunks: seq<Str>)
    requires IsChunking(Hyphenated(a, b, dash), 1, groups, chunks)
    ensures chunks == [Hyphenated(a, b, dash)] && |Tokens(chunks[0])| == 2
  {
    var s := Hyphenated(a, b, dash);
    var item := Sentence(s);
    HyphenatedIsOneWord(a, b, dash);
    PlainIsOneItem(s);
    var none: seq<Group> := [];
    AddGroup(none, item, 1);
    assert none + [[item]] == [[item]];
    GreedyIsUnique(groups, [[item]], 1);
    PiecesOfOne([s]);
    assert [[item]][..0] == none;
    assert Rendered([[item]], 1) == [s];
  }
}
