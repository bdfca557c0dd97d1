/**
 * mcp_redaction.py: configured MCP credential values and endpoint URLs are replaced, longest
 * first, by a fixed mark in every string of an event payload.
 */
module Redaction {
  import opened Texts
  import opened Wrappers

  const REDACTED: string := "[REDACTED]"
  const MIN_REDACT_LENGTH := 4

  datatype Server = Server(url: string, credentialValue: Option<string>)

  // -------------------------------------------------------------------------------------------
  // The literals
  // -------------------------------------------------------------------------------------------

  /** The texts to strip: every non-empty URL, and every credential of at least four characters. */
  ghost predicate IsSecret(servers: seq<Server>, w: string) {
    exists s :: s in servers &&
      ((s.url == w && |w| > 0) || (s.credentialValue == Some(w) && |w| >= MIN_REDACT_LENGTH))
  }

  ghost predicate LongestFirst(literals: seq<string>) {
    forall i, j | 0 <= i < j < |literals| :: |literals[i]| >= |literals[j]| && literals[i] != literals[j]
  }

  lemma {:induction false} LongestExists(s: set<string>) returns (longest: string)
    requires s != {}
    ensures longest in s && forall w | w in s :: |w| <= |longest|
  {
    var x :| x in s;
    if s == {x} {
      longest := x;
    } else {
      var rest := LongestExists(s - {x});
      longest := if |x| > |rest| then x else rest;
      assert forall w | w in s :: w == x || w in s - {x};
    }
  }

  /** sorted(literals, key=len, reverse=True): texts of equal length come in no particular order. */
  method SortLongestFirst(literals: set<string>) returns (sorted: seq<string>)
    ensures LongestFirst(sorted)
    ensures forall w :: w in sorted <==> w in literals
  {
    sorted := [];
    var rest := literals;
    while rest != {}
      invariant LongestFirst(sorted)
      invariant forall w :: w in literals <==> (w in sorted || w in rest)
      invariant forall w, v | w in rest && v in sorted :: w != v && |w| <= |v|
      decreases rest
    {
      ghost var bound := LongestExists(rest);
      var longest :| longest in rest && forall w | w in rest :: |w| <= |longest|;
      sorted := sorted + [longest];
      rest := rest - {longest};
    }
  }

  method SecretLiterals(servers: seq<Server>) returns (literals: seq<string>)
    ensures LongestFirst(literals)
    ensures forall w :: w in literals <==> IsSecret(servers, w)
  {
    var found: set<string> := {};
    for i := 0 to |servers|
      invariant forall w :: w in found <==> IsSecret(servers[..i], w)
    {
      ghost var before := found;
      if servers[i].credentialValue.Some? && |servers[i].credentialValue.value| >= MIN_REDACT_LENGTH {
        found := found + {servers[i].credentialValue.value};
      }
      if |servers[i].url| > 0 {
        found := found + {servers[i].url};
      }
      assert servers[..i + 1] == servers[..i] + [servers[i]];
      forall w ensures w in found <==> IsSecret(servers[..i + 1], w) {
        assert w in before <==> IsSecret(servers[..i], w);
        assert servers[i] in servers[..i + 1];
      }
    }
    assert servers[..|servers|] == servers;
    literals := SortLongestFirst(found);
  }

  // -------------------------------------------------------------------------------------------
  // Replacement
  // -------------------------------------------------------------------------------------------

  /** text.replace(w, mark): non-overlapping occurrences from the left. */
  function Replaced(text: string, w: string, mark: string): string
    requires |w| > 0
    decreases |text|
  {
    if |text| < |w| then text
    else if text[..|w|] == w then mark + Replaced(text[|w|..], w, mark)
    else [text[0]] + Replaced(text[1..], w, mark)
  }

  function Join(pieces: seq<string>, separator: string): string {
    if |pieces| == 0 then []
    else if |pieces| == 1 then pieces[0]
    else pieces[0] + separator + Join(pieces[1..], separator)
  }

  /**
   * What a replacement keeps: the input is some pieces, none of which contains `w`, with `w`
   * between them, and the result is the same pieces with the mark between them.
   */
  lemma {:induction false} ReplacedKeepsTheRest(text: string, w: string, mark: string) returns (pieces: seq<string>)
    requires |w| > 0
    ensures |pieces| > 0 && forall p | p in pieces :: !Contains(p, w)
    ensures text == Join(pieces, w)
    ensures Replaced(text, w, mark) == Join(pieces, mark)
    decreases |text|
  {
    if |text| < |w| {
      pieces := [text];
    } else if text[..|w|] == w {
      var rest := ReplacedKeepsTheRest(text[|w|..], w, mark);
      pieces := [[]] + rest;
      assert pieces[1..] == rest;
      assert text == [] + w + text[|w|..];
      assert Join(pieces, mark) == [] + mark + Join(rest, mark);
    } else {
      var rest := ReplacedKeepsTheRest(text[1..], w, mark);
      var first := [text[0]] + rest[0];
      pieces := [first] + rest[1..];
      assert pieces[1..] == rest[1..];
      JoinLongerFirst(text[0], rest, w);
      JoinLongerFirst(text[0], rest, mark);
      assert text == [text[0]] + text[1..];
      assert first <= text;
      FirstOrLater(text, first, rest[0], w);
      forall p | p in pieces ensures !Contains(p, w) {
        assert p == first || p in rest;
      }
    }
  }

  lemma FirstOrLater(text: string, first: string, later: string, w: string)
    requires |first| > 0 && first <= text && first[1..] == later
    ensures Contains(first, w) ==> Contains(later, w) || w <= text
  {
    if i :| OccursAt(first, w, i) {
      if i > 0 {
        assert first == [first[0]] + later;
        assert first[i..i + |w|] == later[i - 1..i - 1 + |w|];
        assert OccursAt(later, w, i - 1);
      } else {
        assert first[0..|w|] == text[..|w|];
      }
    }
  }

  lemma JoinLongerFirst(c: char, pieces: seq<string>, separator: string)
    requires |pieces| > 0
    ensures Join([[c] + pieces[0]] + pieces[1..], separator) == [c] + Join(pieces, separator)
    ensures pieces[0] <= Join(pieces, separator)
  {
    var longer := [[c] + pieces[0]] + pieces[1..];
    assert longer[1..] == pieces[1..];
    if |pieces| > 1 {
      assert [c] + pieces[0] + separator + Join(pieces[1..], separator)
          == [c] + (pieces[0] + separator + Join(pieces[1..], separator));
    }
  }

  /** The replacements of `literals` one after the other. */
  function Redacted(text: string, literals: seq<string>, mark: string): string
    requires forall w | w in literals :: |w| > 0
    decreases |literals|
  {
    if |literals| == 0 then text
    else Redacted(Replaced(text, literals[0], mark), literals[1..], mark)
  }

  /**
   * `w` laid over `mark` from its position `d` on (before its start when `d` is negative)
   * agrees with it wherever the two overlap.
   */
  ghost predicate Aligned(w: string, mark: string, d: int) {
    && -|w| < d < |mark|
    && forall j {:trigger w[j]} | 0 <= j < |w| && 0 <= d + j < |mark| :: w[j] == mark[d + j]
  }

  /** `w` and `mark` can share no character of any text. */
  ghost predicate Clashes(w: string, mark: string) {
    forall d :: !Aligned(w, mark, d)
  }

  ghost predicate Clean(text: string, literals: seq<string>) {
    forall w | w in literals :: !Contains(text, w)
  }

  /** A text that clashes with the mark starts the result only where it started the input. */
  lemma {:induction false} PrefixIsOld(text: string, lit: string, mark: string, w: string, k: nat)
    requires |lit| > 0 && |mark| > 0 && Clashes(w, mark)
    requires k <= |w| && w[k..] <= Replaced(text, lit, mark)
    ensures w[k..] <= text
    decreases |text|
  {
    var rest := w[k..];
    if |text| < |lit| || k == |w| {
    } else if text[..|lit|] == lit {
      var result := mark + Replaced(text[|lit|..], lit, mark);
      var d: int := 0 - k;
      forall j | 0 <= j < |w| && 0 <= d + j < |mark| ensures w[j] == mark[d + j] {
        assert w[j] == rest[j - k] == result[j - k];
      }
      assert Aligned(w, mark, d);
      assert false;
    } else {
      var tail := Replaced(text[1..], lit, mark);
      var result := [text[0]] + tail;
      assert rest[0] == result[0] && w[k + 1..] == rest[1..];
      assert result[..|rest|][1..] == tail[..|rest| - 1];
      PrefixIsOld(text[1..], lit, mark, w, k + 1);
      assert rest == [rest[0]] + rest[1..];
      assert text == [text[0]] + text[1..];
    }
  }

  /** Replacing some literal brings no text into being that clashes with the mark. */
  lemma {:induction false} ReplacingCreatesNothing(text: string, lit: string, mark: string, w: string)
    requires |lit| > 0 && |mark| > 0 && |w| > 0 && Clashes(w, mark)
    requires Contains(Replaced(text, lit, mark), w)
    ensures Contains(text, w)
    ensures w != lit
  {
    var i :| OccursAt(Replaced(text, lit, mark), w, i);
    OccurrenceIsOld(text, lit, mark, w, i);
  }

  lemma {:induction false} OccurrenceIsOld(text: string, lit: string, mark: string, w: string, i: nat)
    requires |lit| > 0 && |mark| > 0 && |w| > 0 && Clashes(w, mark)
    requires OccursAt(Replaced(text, lit, mark), w, i)
    ensures Contains(text, w) && w != lit
    decreases |text|
  {
    var result := Replaced(text, lit, mark);
    if |text| < |lit| {
      assert OccursAt(text, w, i);
    } else if text[..|lit|] == lit {
      var tail := Replaced(text[|lit|..], lit, mark);
      if i >= |mark| {
        assert result[i..i + |w|] == tail[i - |mark|..i - |mark| + |w|];
        OccurrenceIsOld(text[|lit|..], lit, mark, w, i - |mark|);
        ShiftOccurrence(text, |lit|, w);
      } else {
        forall j | 0 <= j < |w| && 0 <= i + j < |mark| ensures w[j] == mark[i + j] {
          assert w[j] == result[i..i + |w|][j] == result[i + j];
        }
        assert Aligned(w, mark, i);
        assert false;
      }
    } else {
      var tail := Replaced(text[1..], lit, mark);
      if i >= 1 {
        assert result[i..i + |w|] == tail[i - 1..i - 1 + |w|];
        OccurrenceIsOld(text[1..], lit, mark, w, i - 1);
        ShiftOccurrence(text, 1, w);
      } else {
        assert w[0..] == w && w <= result;
        PrefixIsOld(text, lit, mark, w, 0);
        assert OccursAt(text, w, 0);
      }
    }
  }

  lemma ShiftOccurrence(text: string, n: nat, w: string)
    requires n <= |text| && Contains(text[n..], w)
    ensures Contains(text, w)
  {
    var i :| OccursAt(text[n..], w, i);
    assert text[n..][i..i + |w|] == text[n + i..n + i + |w|];
    assert OccursAt(text, w, n + i);
  }

  lemma {:induction false} AbsentStaysAbsent(text: string, literals: seq<string>, mark: string, w: string)
    requires (forall v | v in literals :: |v| > 0) && |mark| > 0
    requires |w| > 0 && Clashes(w, mark) && !Contains(text, w)
    ensures !Contains(Redacted(text, literals, mark), w)
    decreases |literals|
  {
    if |literals| > 0 {
      var next := Replaced(text, literals[0], mark);
      if Contains(next, w) {
        ReplacingCreatesNothing(text, literals[0], mark, w);
      }
      AbsentStaysAbsent(next, literals[1..], mark, w);
    }
  }

  /**
   * The promise of the redaction pass, in any order of the literals: when each of them clashes
   * with the mark, none of them occurs anywhere in the result.
   */
  lemma {:induction false} NoLiteralSurvives(text: string, literals: seq<string>, mark: string)
    requires |mark| > 0
    requires forall w | w in literals :: |w| > 0 && Clashes(w, mark)
    ensures Clean(Redacted(text, literals, mark), literals)
    decreases |literals|
  {
    if |literals| > 0 {
      var next := Replaced(text, literals[0], mark);
      if Contains(next, literals[0]) {
        ReplacingCreatesNothing(text, literals[0], mark, literals[0]);
      }
      AbsentStaysAbsent(next, literals[1..], mark, literals[0]);
      NoLiteralSurvives(next, literals[1..], mark);
      assert literals == [literals[0]] + literals[1..];
    }
  }

  lemma {:induction false} AbsentIsUntouched(text: string, w: string, mark: string)
    requires |w| > 0 && !Contains(text, w)
    ensures Replaced(text, w, mark) == text
    decreases |text|
  {
    if |text| >= |w| {
      assert OccursAt(text, w, 0) <==> text[..|w|] == w;
      if Contains(text[1..], w) {
        ShiftOccurrence(text, 1, w);
      }
      AbsentIsUntouched(text[1..], w, mark);
      assert text == [text[0]] + text[1..];
    }
  }

  /** A text without configured literals passes through unchanged. */
  lemma {:induction false} CleanIsUntouched(text: string, literals: seq<string>, mark: string)
    requires forall w | w in literals :: |w| > 0
    requires Clean(text, literals)
    ensures Redacted(text, literals, mark) == text
  {
    if |literals| > 0 {
      AbsentIsUntouched(text, literals[0], mark);
      CleanIsUntouched(text, literals[1..], mark);
    }
  }

  /** Redacting twice is redacting once. */
  lemma RedactionIsIdempotent(text: string, literals: seq<string>, mark: string)
    requires |mark| > 0
    requires forall w | w in literals :: |w| > 0 && Clashes(w, mark)
    ensures Redacted(Redacted(text, literals, mark), literals, mark) == Redacted(text, literals, mark)
  {
    NoLiteralSurvives(text, literals, mark);
    CleanIsUntouched(Redacted(text, literals, mark), literals, mark);
  }

  // -------------------------------------------------------------------------------------------
  // When the promise holds
  // -------------------------------------------------------------------------------------------

  ghost predicate Bracketed(mark: string) {
    |mark| >= 2 && mark[0] == '[' && mark[|mark| - 1] == ']'
  }

  ghost predicate BracketFree(w: string) {
    '[' !in w && ']' !in w
  }

  /** Whatever is laid over a bracketed mark covers one of its brackets or lies inside it. */
  lemma AlignedCoversBracket(w: string, mark: string, d: int)
    requires Bracketed(mark) && Aligned(w, mark, d) && |w| > 0
    ensures '[' in w || ']' in w || OccursAt(mark, w, d)
  {
    var last := |mark| - 1;
    if d <= 0 {
      assert w[-d] == mark[d + -d];
    } else if d + |w| > last {
      assert w[last - d] == mark[d + (last - d)];
    } else {
      assert forall j | 0 <= j < |w| :: w[j] == mark[d..d + |w|][j];
    }
  }

  lemma BracketFreeClashes(w: string, mark: string)
    requires Bracketed(mark) && BracketFree(w) && |w| > 0
    ensures Clashes(w, mark) <==> !Contains(mark, w)
  {
    forall d | Aligned(w, mark, d) ensures Contains(mark, w) {
      AlignedCoversBracket(w, mark, d);
    }
    if Contains(mark, w) {
      var i :| OccursAt(mark, w, i);
      forall j | 0 <= j < |w| && 0 <= i + j < |mark| ensures w[j] == mark[i + j] {
        assert mark[i..i + |w|][j] == mark[i + j];
      }
      assert Aligned(w, mark, i);
    }
  }

  /**
   * The exact condition. For literals without brackets, taken longest first, the pass keeps its
   * promise for every text if and only if no literal is a substring of the mark itself.
   */
  lemma RedactionIsCompleteIff(literals: seq<string>, mark: string)
    requires Bracketed(mark) && LongestFirst(literals)
    requires forall w | w in literals :: |w| > 0 && BracketFree(w)
    ensures (forall text :: Clean(Redacted(text, literals, mark), literals))
            <==> (forall w | w in literals :: !Contains(mark, w))
  {
    if forall w | w in literals :: !Contains(mark, w) {
      forall w | w in literals ensures Clashes(w, mark) {
        BracketFreeClashes(w, mark);
      }
      forall text ensures Clean(Redacted(text, literals, mark), literals) {
        NoLiteralSurvives(text, literals, mark);
      }
    } else {
      var i := LastInMark(literals, mark);
      SurvivingLiteral(literals, mark, i);
      assert !Clean(Redacted(literals[i], literals, mark), literals);
    }
  }

  lemma {:induction false} LastInMark(literals: seq<string>, mark: string) returns (i: nat)
    requires exists w | w in literals :: Contains(mark, w)
    ensures i < |literals| && Contains(mark, literals[i])
    ensures Clean(mark, literals[i + 1..])
  {
    var last := |literals| - 1;
    if Contains(mark, literals[last]) {
      i := last;
    } else {
      assert literals == literals[..last] + [literals[last]];
      i := LastInMark(literals[..last], mark);
      assert literals[i + 1..] == literals[..last][i + 1..] + [literals[last]];
    }
  }

  lemma OnlyItselfAsLong(text: string, w: string)
    requires |w| >= |text|
    ensures Contains(text, w) ==> w == text
  {
    forall i | OccursAt(text, w, i) ensures w == text {
      assert i == 0 && text[0..|text|] == text;
    }
  }

  /** The text that is just the last such literal becomes the mark, and the mark stays. */
  lemma {:induction false} SurvivingLiteral(literals: seq<string>, mark: string, i: nat)
    requires LongestFirst(literals) && forall w | w in literals :: |w| > 0
    requires i < |literals| && Contains(mark, literals[i]) && Clean(mark, literals[i + 1..])
    ensures Redacted(literals[i], literals, mark) == mark
  {
    var w := literals[i];
    if i == 0 {
      assert w + [] == w && mark + [] == mark;
      ReplaceAtStart(w, [], mark);
      CleanIsUntouched(mark, literals[1..], mark);
    } else {
      OnlyItselfAsLong(w, literals[0]);
      AbsentIsUntouched(w, literals[0], mark);
      assert literals[1..][i - 1..][1..] == literals[i + 1..];
      SurvivingLiteral(literals[1..], mark, i - 1);
    }
  }

  lemma OneLiteral(text: string, w: string, mark: string)
    requires |w| > 0
    ensures Redacted(text, [w], mark) == Replaced(text, w, mark)
  {
    assert [w][1..] == [];
  }

  lemma ReplaceAtStart(w: string, rest: string, mark: string)
    requires |rest| < |w|
    ensures Replaced(w + rest, w, mark) == mark + rest
  {
    assert (w + rest)[..|w|] == w && (w + rest)[|w|..] == rest;
  }

  /**
   * With brackets the promise can fail without any literal being a substring of the mark: a
   * literal `end + rest` comes back after itself and `rest` when the mark ends with `end`.
   */
  lemma OverlappingLiteralComesBack(start: string, end: string, rest: string)
    requires |end| > 0
    ensures var w, mark := end + rest, start + end;
            Contains(Redacted(w + rest, [w], mark), w)
  {
    var w, mark := end + rest, start + end;
    ReplaceAtStart(w, rest, mark);
    OneLiteral(w + rest, w, mark);
    var result := mark + rest;
    assert result == start + w;
    assert OccursAt(result, w, |start|);
  }

  // -------------------------------------------------------------------------------------------
  // The pass over texts and payloads
  // -------------------------------------------------------------------------------------------

  method RedactMcpText(servers: seq<Server>, text: string) returns (redacted: string, ghost literals: seq<string>)
    ensures LongestFirst(literals) && forall w :: w in literals <==> IsSecret(servers, w)
    ensures forall w | w in literals :: |w| > 0
    ensures redacted == Redacted(text, literals, REDACTED)
    ensures (forall w | IsSecret(servers, w) :: Clashes(w, REDACTED)) ==>
              forall w | IsSecret(servers, w) :: !Contains(redacted, w)
  {
    var remaining := SecretLiterals(servers);
    literals := remaining;
    redacted := text;
    if |text| > 0 {
      while |remaining| > 0
        invariant forall w | w in remaining :: w in literals
        invariant Redacted(redacted, remaining, REDACTED) == Redacted(text, literals, REDACTED)
      {
        redacted := Replaced(redacted, remaining[0], REDACTED);
        remaining := remaining[1..];
      }
    } else {
      EmptyIsUntouched(text, literals, REDACTED);
    }
    if forall w | IsSecret(servers, w) :: Clashes(w, REDACTED) {
      NoLiteralSurvives(text, literals, REDACTED);
    }
  }

  lemma {:induction false} EmptyIsUntouched(text: string, literals: seq<string>, mark: string)
    requires |text| == 0 && forall w | w in literals :: |w| > 0
    ensures Redacted(text, literals, mark) == text
  {
    if |literals| > 0 {
      EmptyIsUntouched(text, literals[1..], mark);
    }
  }

  datatype Json =
    | Text(text: string)
    | Atom(value: int)
    | List(items: seq<Json>)
    | Tuple(items: seq<Json>)
    | Dict(fields: seq<Field>)

  datatype Field = Field(key: string, value: Json)

  function RedactedValue(v: Json, literals: seq<string>, mark: string): Json
    requires forall w | w in literals :: |w| > 0
    decreases v, 0
  {
    match v
    case Text(t) => Text(Redacted(t, literals, mark))
    case Atom(_) => v
    case List(items) => List(RedactedItems(items, literals, mark))
    case Tuple(items) => List(RedactedItems(items, literals, mark))
    case Dict(fields) => Dict(RedactedFields(fields, literals, mark))
  }

  function RedactedItems(items: seq<Json>, literals: seq<string>, mark: string): seq<Json>
    requires forall w | w in literals :: |w| > 0
    decreases items, 1
  {
    if |items| == 0 then []
    else [RedactedValue(items[0], literals, mark)] + RedactedItems(items[1..], literals, mark)
  }

  function RedactedFields(fields: seq<Field>, literals: seq<string>, mark: string): seq<Field>
    requires forall w | w in literals :: |w| > 0
    decreases fields, 1
  {
    if |fields| == 0 then []
    else [Field(fields[0].key, RedactedValue(fields[0].value, literals, mark))]
         + RedactedFields(fields[1..], literals, mark)
  }

  /** Every string value of a payload, in order; keys are not values. */
  function Strings(v: Json): seq<string>
    decreases v, 0
  {
    match v
    case Text(t) => [t]
    case Atom(_) => []
    case List(items) => ItemStrings(items)
    case Tuple(items) => ItemStrings(items)
    case Dict(fields) => FieldStrings(fields)
  }

  function ItemStrings(items: seq<Json>): seq<string>
    decreases items, 1
  {
    if |items| == 0 then [] else Strings(items[0]) + ItemStrings(items[1..])
  }

  function FieldStrings(fields: seq<Field>): seq<string>
    decreases fields, 1
  {
    if |fields| == 0 then [] else Strings(fields[0].value) + FieldStrings(fields[1..])
  }

  /** The payload with its string values blanked; what redaction must not change. */
  function Shape(v: Json): Json
    decreases v, 0
  {
    match v
    case Text(_) => Text("")
    case Atom(_) => v
    case List(items) => List(ItemShapes(items))
    case Tuple(items) => List(ItemShapes(items))
    case Dict(fields) => Dict(FieldShapes(fields))
  }

  function ItemShapes(items: seq<Json>): seq<Json>
    decreases items, 1
  {
    if |items| == 0 then [] else [Shape(items[0])] + ItemShapes(items[1..])
  }

  function FieldShapes(fields: seq<Field>): seq<Field>
    decreases fields, 1
  {
    if |fields| == 0 then [] else [Field(fields[0].key, Shape(fields[0].value))] + FieldShapes(fields[1..])
  }

  ghost predicate RedactedAll(before: seq<string>, after: seq<string>, literals: seq<string>, mark: string)
    requires forall w | w in literals :: |w| > 0
  {
    |after| == |before| && forall i | 0 <= i < |before| :: after[i] == Redacted(before[i], literals, mark)
  }

  /**
   * The payload pass rebuilds the same structure, with the same keys, numbers and order, and each
   * string value in it is the redaction of the string that was there.
   */
  lemma {:induction false} PayloadIsRedactedInPlace(v: Json, literals: seq<string>, mark: string)
    requires forall w | w in literals :: |w| > 0
    ensures Shape(RedactedValue(v, literals, mark)) == Shape(v)
    ensures RedactedAll(Strings(v), Strings(RedactedValue(v, literals, mark)), literals, mark)
    decreases v, 0
  {
    match v
    case Text(_) =>
    case Atom(_) =>
    case List(items) => ItemsAreRedactedInPlace(items, literals, mark);
    case Tuple(items) => ItemsAreRedactedInPlace(items, literals, mark);
    case Dict(fields) => FieldsAreRedactedInPlace(fields, literals, mark);
  }

  lemma {:induction false} ItemsAreRedactedInPlace(items: seq<Json>, literals: seq<string>, mark: string)
    requires forall w | w in literals :: |w| > 0
    ensures ItemShapes(RedactedItems(items, literals, mark)) == ItemShapes(items)
    ensures RedactedAll(ItemStrings(items), ItemStrings(RedactedItems(items, literals, mark)), literals, mark)
    decreases items, 1
  {
    if |items| > 0 {
      PayloadIsRedactedInPlace(items[0], literals, mark);
      ItemsAreRedactedInPlace(items[1..], literals, mark);
      assert RedactedItems(items, literals, mark)[1..] == RedactedItems(items[1..], literals, mark);
    }
  }

  lemma {:induction false} FieldsAreRedactedInPlace(fields: seq<Field>, literals: seq<string>, mark: string)
    requires forall w | w in literals :: |w| > 0
    ensures FieldShapes(RedactedFields(fields, literals, mark)) == FieldShapes(fields)
    ensures RedactedAll(FieldStrings(fields), FieldStrings(RedactedFields(fields, literals, mark)), literals, mark)
    decreases fields, 1
  {
    if |fields| > 0 {
      PayloadIsRedactedInPlace(fields[0].value, literals, mark);
      FieldsAreRedactedInPlace(fields[1..], literals, mark);
      assert RedactedFields(fields, literals, mark)[1..] == RedactedFields(fields[1..], literals, mark);
    }
  }

  /** No configured literal is left in any string value of a redacted payload. */
  lemma PayloadIsClean(v: Json, literals: seq<string>, mark: string)
    requires |mark| > 0
    requires forall w | w in literals :: |w| > 0 && Clashes(w, mark)
    ensures forall s | s in Strings(RedactedValue(v, literals, mark)) :: Clean(s, literals)
  {
    PayloadIsRedactedInPlace(v, literals, mark);
    var before, after := Strings(v), Strings(RedactedValue(v, literals, mark));
    forall i | 0 <= i < |after| ensures Clean(after[i], literals) {
      NoLiteralSurvives(before[i], literals, mark);
    }
  }
}
