/**
 * attachment_delivery.py: DSPy-safe field names for declared attachment slots.
 * A slot's display name is reduced to an identifier, and a numeric suffix is tried until the name
 * is free of the reserved names and of every name handed out before it.
 */
module FieldNames {
  import opened Decimal

  type SlotId = int

  datatype Slot = Slot(id: SlotId, name: string)

  const RESERVED_NAMES: set<string> :=
    {"user_request", "history", "attachment_image", "process_result", "output_attachments"}

  /** Put before a name that would otherwise be empty or start with a digit. */
  const PREFIX: string := "attachment"

  predicate IsLower(c: char) { 'a' <= c <= 'z' }

  predicate IsUpper(c: char) { 'A' <= c <= 'Z' }

  predicate IsDigit(c: char) { '0' <= c <= '9' }

  predicate IsAlnum(c: char) { IsLower(c) || IsUpper(c) || IsDigit(c) }

  /** First substitution: an underscore between a lower-case letter or digit and a capital. */
  function Underscored(s: string): string {
    if |s| < 2 then s
    else if (IsLower(s[0]) || IsDigit(s[0])) && IsUpper(s[1]) then [s[0], '_'] + Underscored(s[1..])
    else [s[0]] + Underscored(s[1..])
  }

  /** Second substitution: every maximal run of other characters becomes one underscore. */
  function Collapsed(s: string): (r: string)
    ensures forall c | c in r :: IsAlnum(c) || c == '_'
  {
    if |s| == 0 then s
    else if IsAlnum(s[0]) then [s[0]] + Collapsed(s[1..])
    else if |s| > 1 && !IsAlnum(s[1]) then Collapsed(s[1..])
    else "_" + Collapsed(s[1..])
  }

  function StripLeft(s: string): (r: string)
    ensures r == "" || r[0] != '_'
    ensures forall c | c in r :: c in s
  {
    if |s| > 0 && s[0] == '_' then StripLeft(s[1..]) else s
  }

  function StripRight(s: string): (r: string)
    ensures r <= s
    ensures r == "" || r[|r| - 1] != '_'
  {
    if |s| > 0 && s[|s| - 1] == '_' then StripRight(s[..|s| - 1]) else s
  }

  function LowerChar(c: char): char {
    if IsUpper(c) then ((c as int) + 32) as char else c
  }

  function Lowered(s: string): (r: string)
    ensures |r| == |s| && forall i | 0 <= i < |s| :: r[i] == LowerChar(s[i])
  {
    seq(|s|, i requires 0 <= i < |s| => LowerChar(s[i]))
  }

  function SnakeName(name: string): string {
    Lowered(StripRight(StripLeft(Collapsed(Underscored(name)))))
  }

  /** The identifier a slot's display name is reduced to, before any suffix. */
  function BaseName(name: string): string {
    var snake := SnakeName(name);
    if snake == "" || IsDigit(snake[0]) then StripRight(PREFIX + "_" + snake) else snake
  }

  predicate IsFieldChar(c: char) { IsLower(c) || IsDigit(c) || c == '_' }

  /** What the steps before the prefix leave: identifier characters, no underscore at either end. */
  lemma SnakeNameIsTrimmed(name: string)
    ensures var snake := SnakeName(name);
            && (forall i | 0 <= i < |snake| :: IsFieldChar(snake[i]))
            && (snake != "" ==> snake[0] != '_' && snake[|snake| - 1] != '_')
  {
    var left := StripLeft(Collapsed(Underscored(name)));
    var stripped := StripRight(left);
    forall i | 0 <= i < |stripped| ensures IsAlnum(stripped[i]) || stripped[i] == '_' {
      assert stripped[i] == left[i];
      assert left[i] in left;
    }
    assert stripped != "" ==> stripped[0] == left[0];
  }

  lemma {:induction false} StrippedIsIdentifier(s: string)
    requires IsIdentifier(s)
    ensures IsIdentifier(StripRight(s))
  {
    if s[|s| - 1] == '_' {
      var shorter := s[..|s| - 1];
      assert shorter != "" && shorter[0] == s[0];
      StrippedIsIdentifier(shorter);
    }
  }

  lemma PrefixIsLower()
    ensures |PREFIX| > 0 && forall i | 0 <= i < |PREFIX| :: IsLower(PREFIX[i])
  {
  }

  lemma {:induction false} PrefixedIsIdentifier(prefix: string, snake: string)
    requires prefix != "" && forall i | 0 <= i < |prefix| :: IsLower(prefix[i])
    requires forall i | 0 <= i < |snake| :: IsFieldChar(snake[i])
    ensures IsIdentifier(StripRight(prefix + "_" + snake))
  {
    var full := prefix + "_" + snake;
    assert full[0] == prefix[0];
    forall i | 0 <= i < |full| ensures IsFieldChar(full[i]) {}
    StrippedIsIdentifier(full);
  }

  ghost predicate IsIdentifier(name: string) {
    name != "" && IsLower(name[0]) && forall c | c in name :: IsFieldChar(c)
  }

  /** Whatever the display name, its base is an identifier that starts with a letter. */
  lemma BaseNameIsIdentifier(name: string)
    ensures IsIdentifier(BaseName(name))
  {
    SnakeNameIsTrimmed(name);
    PrefixIsLower();
    PrefixedIsIdentifier(PREFIX, SnakeName(name));
  }

  /** The letters and digits of a text, in order. */
  function AlnumOf(s: string): string {
    if |s| == 0 then []
    else if IsAlnum(s[0]) then [s[0]] + AlnumOf(s[1..])
    else AlnumOf(s[1..])
  }

  lemma {:induction false} AlnumOfConcat(a: string, b: string)
    ensures AlnumOf(a + b) == AlnumOf(a) + AlnumOf(b)
  {
    if |a| == 0 {
      assert a + b == b;
    } else {
      var both := a + b;
      assert both[0] == a[0] && both[1..] == a[1..] + b;
      AlnumOfConcat(a[1..], b);
    }
  }

  lemma {:induction false} UnderscoredKeepsAlnum(s: string)
    ensures AlnumOf(Underscored(s)) == AlnumOf(s)
  {
    if |s| >= 2 {
      UnderscoredKeepsAlnum(s[1..]);
      var rest := Underscored(s[1..]);
      AlnumOfConcat([s[0], '_'], rest);
      AlnumOfConcat([s[0]], rest);
      assert AlnumOf([s[0], '_']) == AlnumOf([s[0]]) + AlnumOf("_") by {
        AlnumOfConcat([s[0]], "_");
      }
      assert [s[0]] + s[1..] == s;
      AlnumOfConcat([s[0]], s[1..]);
    }
  }

  lemma {:induction false} CollapsedKeepsAlnum(s: string)
    ensures AlnumOf(Collapsed(s)) == AlnumOf(s)
  {
    if |s| > 0 {
      CollapsedKeepsAlnum(s[1..]);
      var rest := Collapsed(s[1..]);
      AlnumOfConcat([s[0]], rest);
      AlnumOfConcat("_", rest);
    }
  }

  lemma {:induction false} StripLeftKeepsAlnum(s: string)
    ensures AlnumOf(StripLeft(s)) == AlnumOf(s)
  {
    if |s| > 0 && s[0] == '_' {
      StripLeftKeepsAlnum(s[1..]);
    }
  }

  lemma {:induction false} StripRightKeepsAlnum(s: string)
    ensures AlnumOf(StripRight(s)) == AlnumOf(s)
  {
    if |s| > 0 && s[|s| - 1] == '_' {
      StripRightKeepsAlnum(s[..|s| - 1]);
      AlnumOfConcat(s[..|s| - 1], "_");
      assert s[..|s| - 1] + "_" == s;
    }
  }

  lemma {:induction false} LoweredCommutesWithAlnum(s: string)
    ensures AlnumOf(Lowered(s)) == Lowered(AlnumOf(s))
  {
    if |s| > 0 {
      LoweredCommutesWithAlnum(s[1..]);
      assert Lowered(s)[1..] == Lowered(s[1..]);
    }
  }

  /** Reducing a name loses, adds and reorders no letter or digit of it. */
  lemma BaseNameKeepsAlnum(name: string)
    ensures var kept := Lowered(AlnumOf(name));
            AlnumOf(BaseName(name)) == if kept == "" || IsDigit(kept[0]) then PREFIX + kept else kept
  {
    SnakeNameKeepsAlnum(name);
    if SnakeName(name) != "" {
      SnakeStartsAlnum(name);
    }
    PrefixIsLower();
    PrefixKeepsAlnum(PREFIX, SnakeName(name));
  }

  lemma SnakeNameKeepsAlnum(name: string)
    ensures AlnumOf(SnakeName(name)) == Lowered(AlnumOf(name))
  {
    var collapsed := Collapsed(Underscored(name));
    UnderscoredKeepsAlnum(name);
    CollapsedKeepsAlnum(Underscored(name));
    StripLeftKeepsAlnum(collapsed);
    StripRightKeepsAlnum(StripLeft(collapsed));
    LoweredCommutesWithAlnum(StripRight(StripLeft(collapsed)));
  }

  lemma PrefixKeepsAlnum(prefix: string, snake: string)
    requires forall i | 0 <= i < |prefix| :: IsLower(prefix[i])
    ensures AlnumOf(StripRight(prefix + "_" + snake)) == prefix + AlnumOf(snake)
  {
    var tail := "_" + snake;
    assert tail[1..] == snake;
    assert AlnumOf(tail) == AlnumOf(snake);
    assert prefix + "_" + snake == prefix + tail;
    AllAlnumIsKept(prefix);
    AlnumOfConcat(prefix, tail);
    StripRightKeepsAlnum(prefix + tail);
  }

  lemma {:induction false} AllAlnumIsKept(s: string)
    requires forall i | 0 <= i < |s| :: IsLower(s[i])
    ensures AlnumOf(s) == s
  {
    if |s| > 0 {
      AllAlnumIsKept(s[1..]);
    }
  }

  lemma SnakeStartsAlnum(name: string)
    requires SnakeName(name) != ""
    ensures IsAlnum(SnakeName(name)[0])
  {
    var left := StripLeft(Collapsed(Underscored(name)));
    var stripped := StripRight(left);
    assert stripped[0] == left[0];
    assert left[0] in left;
  }

  /** No capital, no doubled underscore, and nothing but identifier characters. */
  ghost predicate IsSnakeCase(s: string) {
    && (forall i | 0 <= i < |s| :: IsFieldChar(s[i]))
    && forall i | 0 <= i < |s| - 1 :: s[i] != '_' || s[i + 1] != '_'
  }

  lemma {:induction false} SnakeCaseIsKept(s: string)
    requires IsSnakeCase(s)
    ensures Underscored(s) == s && Collapsed(s) == s
  {
    if |s| > 0 {
      SnakeCaseIsKept(s[1..]);
      assert [s[0]] + s[1..] == s;
    }
  }

  lemma LowerCaseIsKept(s: string)
    requires forall i | 0 <= i < |s| :: IsFieldChar(s[i])
    ensures Lowered(s) == s
  {
    forall i | 0 <= i < |s| ensures LowerChar(s[i]) == s[i] {}
  }

  /** A name that is a snake-case identifier already is kept as it is. */
  lemma LegalNameIsKept(name: string)
    requires IsSnakeCase(name) && |name| > 0 && IsLower(name[0]) && name[|name| - 1] != '_'
    ensures BaseName(name) == name
  {
    SnakeCaseIsKept(name);
    LowerCaseIsKept(name);
    assert StripLeft(name) == name && StripRight(name) == name;
    assert SnakeName(name) == name;
  }

  // -------------------------------------------------------------------------------------------
  // Where the underscores stand
  // -------------------------------------------------------------------------------------------

  /** For each letter or digit whether something else stands between it and the one before it. */
  function GapsFrom(s: string, gap: bool): (r: seq<bool>)
    ensures |r| == |AlnumOf(s)|
  {
    if |s| == 0 then []
    else if IsAlnum(s[0]) then [gap] + GapsFrom(s[1..], false)
    else GapsFrom(s[1..], true)
  }

  predicate IsCamel(a: char, b: char) {
    (IsLower(a) || IsDigit(a)) && IsUpper(b)
  }

  lemma {:induction false} GapsAt(s: string, gap: bool)
    ensures forall k | 0 < k < |AlnumOf(s)| :: GapsFrom(s, gap)[k] == GapsFrom(s, !gap)[k]
    ensures |s| > 0 && IsAlnum(s[0]) ==> !GapsFrom(s, false)[0]
    ensures |s| > 0 && !IsAlnum(s[0]) ==> GapsFrom(s, false) == GapsFrom(s, true)
    ensures |AlnumOf(s)| > 0 ==> GapsFrom(s, true)[0]
  {
    if |s| > 0 {
      GapsAt(s[1..], false);
      GapsAt(s[1..], true);
    }
  }

  /** What a list of gaps becomes where a word begins with a capital. */
  ghost predicate AddsCamel(after: seq<bool>, before: seq<bool>, kept: string) {
    CutsAt(after, before, kept) && (|kept| > 0 ==> after[0] == before[0])
  }

  lemma {:induction false} UnderscoredGaps(s: string, gap: bool)
    ensures AddsCamel(GapsFrom(Underscored(s), gap), GapsFrom(s, gap), AlnumOf(s))
  {
    if |s| >= 2 {
      var later := Underscored(s[1..]);
      if !IsAlnum(s[0]) {
        UnderscoredGaps(s[1..], true);
        GapsOfCons(s[0], later, gap);
      } else if IsCamel(s[0], s[1]) {
        UnderscoredGaps(s[1..], true);
        GapsOfCons('_', later, false);
        GapsOfCons(s[0], ['_'] + later, gap);
        assert [s[0], '_'] + later == [s[0]] + (['_'] + later);
        CamelAdds(s, GapsFrom(later, true), gap);
      } else {
        UnderscoredGaps(s[1..], false);
        GapsOfCons(s[0], later, gap);
        PlainAdds(s, GapsFrom(later, false), gap);
      }
    } else if |s| == 1 {
      assert s[1..] == [];
    }
  }

  lemma GapsOfCons(c: char, s: string, gap: bool)
    ensures GapsFrom([c] + s, gap) == if IsAlnum(c) then [gap] + GapsFrom(s, false) else GapsFrom(s, true)
  {
    assert ([c] + s)[1..] == s;
  }

  /** The gaps of a name that begins with the letter or digit `c`, from those of the rest of it. */
  lemma OneMoreGap(later: seq<bool>, before: seq<bool>, kept: string, c: char, gap: bool)
    requires |later| == |before| == |kept|
    requires forall k | 0 < k < |kept| :: later[k] == IsCut(before, kept, k)
    requires |kept| > 0 ==> later[0] == (before[0] || IsCamel(c, kept[0]))
    ensures AddsCamel([gap] + later, [gap] + before, [c] + kept)
  {
    var x, y, z := [gap] + later, [gap] + before, [c] + kept;
    forall k | 0 < k < |z| ensures x[k] == IsCut(y, z, k) {
      assert x[k] == later[k - 1] && y[k] == before[k - 1] && z[k] == kept[k - 1];
      assert k > 1 ==> later[k - 1] == IsCut(before, kept, k - 1);
      assert z[k - 1] == if k == 1 then c else kept[k - 2];
    }
  }

  lemma CamelAdds(s: string, later: seq<bool>, gap: bool)
    requires |s| >= 2 && IsCamel(s[0], s[1]) && AddsCamel(later, GapsFrom(s[1..], true), AlnumOf(s[1..]))
    ensures AddsCamel([gap] + later, GapsFrom(s, gap), AlnumOf(s))
  {
    var rest := s[1..];
    GapsAt(rest, true);
    GapsAt(rest, false);
    forall k | 0 < k < |later| ensures later[k] == IsCut(GapsFrom(rest, false), AlnumOf(rest), k) {
      assert GapsFrom(rest, false)[k] == GapsFrom(rest, true)[k];
    }
    OneMoreGap(later, GapsFrom(rest, false), AlnumOf(rest), s[0], gap);
  }

  lemma PlainAdds(s: string, later: seq<bool>, gap: bool)
    requires |s| >= 2 && IsAlnum(s[0]) && !IsCamel(s[0], s[1])
    requires AddsCamel(later, GapsFrom(s[1..], false), AlnumOf(s[1..]))
    ensures AddsCamel([gap] + later, GapsFrom(s, gap), AlnumOf(s))
  {
    var rest := s[1..];
    GapsAt(rest, true);
    GapsAt(rest, false);
    OneMoreGap(later, GapsFrom(rest, false), AlnumOf(rest), s[0], gap);
  }

  lemma {:induction false} CollapsedGaps(s: string, gap: bool)
    ensures GapsFrom(Collapsed(s), gap) == GapsFrom(s, gap)
  {
    if |s| > 0 {
      var rest := s[1..];
      if IsAlnum(s[0]) {
        CollapsedGaps(rest, false);
        assert Collapsed(s)[1..] == Collapsed(rest);
      } else if |s| > 1 && !IsAlnum(s[1]) {
        CollapsedGaps(rest, gap);
        GapsAt(rest, gap);
      } else {
        CollapsedGaps(rest, true);
        assert Collapsed(s)[1..] == Collapsed(rest);
      }
    }
  }

  lemma {:induction false} StripLeftGaps(s: string)
    ensures var r := GapsFrom(StripLeft(s), false);
            |r| == |AlnumOf(s)| && forall k | 0 < k < |r| :: r[k] == GapsFrom(s, false)[k]
  {
    GapsAt(s, false);
    if |s| > 0 && s[0] == '_' {
      StripLeftGaps(s[1..]);
      GapsAt(s[1..], false);
    }
  }

  lemma {:induction false} TrailingGap(s: string, gap: bool)
    ensures GapsFrom(s + "_", gap) == GapsFrom(s, gap)
  {
    if |s| > 0 {
      assert (s + "_")[1..] == s[1..] + "_";
      TrailingGap(s[1..], if IsAlnum(s[0]) then false else true);
    }
  }

  lemma {:induction false} StripRightGaps(s: string)
    ensures GapsFrom(StripRight(s), false) == GapsFrom(s, false)
  {
    if |s| > 0 && s[|s| - 1] == '_' {
      StripRightGaps(s[..|s| - 1]);
      TrailingGap(s[..|s| - 1], false);
      assert s[..|s| - 1] + "_" == s;
    }
  }

  lemma {:induction false} LoweredGaps(s: string, gap: bool)
    ensures GapsFrom(Lowered(s), gap) == GapsFrom(s, gap)
  {
    if |s| > 0 {
      LoweredGaps(s[1..], false);
      LoweredGaps(s[1..], true);
      assert Lowered(s)[1..] == Lowered(s[1..]);
    }
  }

  ghost predicate HasNoDouble(s: string) {
    forall i | 0 <= i < |s| - 1 :: s[i] != '_' || s[i + 1] != '_'
  }

  lemma {:induction false} CollapsedHasNoDouble(s: string)
    ensures HasNoDouble(Collapsed(s))
    ensures |s| > 0 && IsAlnum(s[0]) ==> |Collapsed(s)| > 0 && Collapsed(s)[0] == s[0]
  {
    if |s| > 0 {
      CollapsedHasNoDouble(s[1..]);
    }
  }

  lemma {:induction false} StripLeftHasNoDouble(s: string)
    requires HasNoDouble(s)
    ensures HasNoDouble(StripLeft(s))
  {
    if |s| > 0 && s[0] == '_' {
      StripLeftHasNoDouble(s[1..]);
    }
  }

  lemma StrippedHasNoDouble(s: string)
    requires HasNoDouble(s)
    ensures HasNoDouble(Lowered(StripRight(StripLeft(s))))
  {
    StripLeftHasNoDouble(s);
    var r := StripRight(StripLeft(s));
    forall k | 0 <= k < |r| ensures Lowered(r)[k] == '_' <==> StripLeft(s)[k] == '_' {
      assert r[k] == StripLeft(s)[k];
    }
  }

  /** Identifier characters, no underscore doubled or at an end. */
  ghost predicate IsTrimmedSnake(s: string) {
    IsSnakeCase(s) && (s != "" ==> s[0] != '_' && s[|s| - 1] != '_')
  }

  /** The words of a name are its letters and digits, cut where something else stood or a capital follows. */
  ghost predicate IsSnakeOf(s: string, name: string) {
    var kept := AlnumOf(name);
    && IsTrimmedSnake(s) && AlnumOf(s) == Lowered(kept)
    && CutsAt(GapsFrom(s, false), GapsFrom(name, false), kept)
  }

  /** A gap, or a word that begins with a capital. */
  predicate IsCut(before: seq<bool>, kept: string, k: int)
    requires 0 < k < |kept| && |before| == |kept|
  {
    before[k] || IsCamel(kept[k - 1], kept[k])
  }

  ghost predicate CutsAt(after: seq<bool>, before: seq<bool>, kept: string) {
    && |after| == |before| == |kept|
    && forall k | 0 < k < |kept| :: after[k] == IsCut(before, kept, k)
  }

  lemma SameGaps(a: seq<bool>, b: seq<bool>, before: seq<bool>, kept: string)
    requires CutsAt(a, before, kept) && CutsAt(b, before, kept) && (|kept| > 0 ==> a[0] == b[0])
    ensures a == b
  {
    forall k | 0 <= k < |a| ensures a[k] == b[k] {
      if k > 0 {
        assert a[k] == IsCut(before, kept, k);
      }
    }
  }

  lemma SnakeNameIsSnake(name: string)
    ensures IsSnakeOf(SnakeName(name), name)
  {
    var under := Underscored(name);
    var collapsed := Collapsed(under);
    var left := StripLeft(collapsed);
    SnakeNameIsTrimmed(name);
    SnakeNameKeepsAlnum(name);
    CollapsedHasNoDouble(under);
    StrippedHasNoDouble(collapsed);
    UnderscoredGaps(name, false);
    UnderscoredKeepsAlnum(name);
    CollapsedGaps(under, false);
    CollapsedKeepsAlnum(under);
    StripLeftGaps(collapsed);
    StripRightGaps(left);
    LoweredGaps(StripRight(left), false);
    SnakeCuts(GapsFrom(SnakeName(name), false), GapsFrom(collapsed, false), GapsFrom(name, false), AlnumOf(name));
  }

  lemma SnakeCuts(after: seq<bool>, middle: seq<bool>, before: seq<bool>, kept: string)
    requires AddsCamel(middle, before, kept) && |after| == |middle| && forall k | 0 < k < |after| :: after[k] == middle[k]
    ensures CutsAt(after, before, kept)
  {
  }

  lemma {:induction false} EndIsKept(s: string)
    requires IsSnakeCase(s) && s != "" && s[|s| - 1] != '_'
    ensures AlnumOf(s) != ""
  {
    if |s| > 1 {
      EndIsKept(s[1..]);
    }
  }

  /** The letters and digits, and where the gaps are, determine a trimmed name. */
  lemma {:induction false} SameSnake(a: string, b: string)
    requires IsSnakeCase(a) && IsSnakeCase(b)
    requires (a != "" ==> a[|a| - 1] != '_') && (b != "" ==> b[|b| - 1] != '_')
    requires AlnumOf(a) == AlnumOf(b) && GapsFrom(a, false) == GapsFrom(b, false)
    ensures a == b
  {
    if a == "" {
      if b != "" {
        EndIsKept(b);
      }
    } else {
      EndIsKept(a);
      GapsAt(a, false);
      GapsAt(b, false);
      assert b != "";
      assert a[0] == '_' <==> b[0] == '_';
      if a[0] == '_' {
        SameTail(a, b);
      } else {
        assert AlnumOf(a)[1..] == AlnumOf(a[1..]) && AlnumOf(b)[1..] == AlnumOf(b[1..]);
        assert GapsFrom(a, false)[1..] == GapsFrom(a[1..], false) && GapsFrom(b, false)[1..] == GapsFrom(b[1..], false);
      }
      SameSnake(a[1..], b[1..]);
      assert a == [a[0]] + a[1..] && b == [b[0]] + b[1..];
    }
  }

  lemma SameTail(a: string, b: string)
    requires IsSnakeCase(a) && IsSnakeCase(b) && a != "" && b != "" && a[0] == '_' && b[0] == '_'
    requires a[|a| - 1] != '_' && b[|b| - 1] != '_' && GapsFrom(a, false) == GapsFrom(b, false)
    requires AlnumOf(a) == AlnumOf(b)
    ensures GapsFrom(a[1..], false) == GapsFrom(b[1..], false) && AlnumOf(a[1..]) == AlnumOf(b[1..])
  {
    GapsAt(a[1..], true);
    GapsAt(b[1..], true);
    GapsAt(a[1..], false);
    GapsAt(b[1..], false);
    assert IsAlnum(a[1]) && IsAlnum(b[1]);
  }

  /** The name in snake case, exactly. */
  lemma SnakeNameIsExact(name: string, s: string)
    ensures IsSnakeOf(s, name) <==> s == SnakeName(name)
  {
    SnakeNameIsSnake(name);
    if IsSnakeOf(s, name) {
      var r := SnakeName(name);
      FirstGap(s);
      FirstGap(r);
      SameGaps(GapsFrom(s, false), GapsFrom(r, false), GapsFrom(name, false), AlnumOf(name));
      SameSnake(s, r);
    }
  }

  lemma FirstGap(s: string)
    requires IsTrimmedSnake(s)
    ensures |GapsFrom(s, false)| > 0 ==> !GapsFrom(s, false)[0]
  {
    GapsAt(s, false);
  }

  /** The base of a field name: the snake-case form, with the prefix before an empty one or a digit. */
  lemma BaseNameIsExact(name: string, s: string)
    requires IsSnakeOf(s, name)
    ensures BaseName(name) == if s == "" then PREFIX else if IsDigit(s[0]) then PREFIX + "_" + s else s
  {
    SnakeNameIsExact(name, s);
    assert PREFIX + "_" + "" == PREFIX + "_";
    var full := PREFIX + "_" + s;
    PrefixIsLower();
    if s == "" {
      assert full[..|full| - 1] == PREFIX && full[|full| - 1] == '_';
      assert PREFIX[|PREFIX| - 1] != '_' && StripRight(PREFIX) == PREFIX;
    } else {
      assert full[|full| - 1] == s[|s| - 1];
    }
  }

  // -------------------------------------------------------------------------------------------
  // Allocation
  // -------------------------------------------------------------------------------------------

  function Suffixed(base: string, k: nat): string { base + "_" + Digits(k) }

  lemma SuffixedInjective(base: string, j: nat, k: nat)
    requires Suffixed(base, j) == Suffixed(base, k)
    ensures j == k
  {
    assert Suffixed(base, j)[|base| + 1..] == Digits(j);
    assert Suffixed(base, k)[|base| + 1..] == Digits(k);
    DigitsInjective(j, k);
  }

  lemma SuffixedIsLonger(base: string, k: nat)
    ensures |Suffixed(base, k)| > |base|
  {
  }

  /** `name` is `base` when that is free, and otherwise `base` with the least free suffix from 2 up. */
  ghost predicate IsLeastFree(base: string, used: set<string>, name: string) {
    if base !in used then name == base
    else exists k: nat | k >= 2 ::
           && name == Suffixed(base, k)
           && name !in used
           && forall j | 2 <= j < k :: Suffixed(base, j) in used
  }

  /** There is only one such name: the allocation is stable. */
  lemma LeastFreeIsUnique(base: string, used: set<string>, a: string, b: string)
    requires IsLeastFree(base, used, a) && IsLeastFree(base, used, b)
    ensures a == b
  {
    if base in used {
      var j: nat :| j >= 2 && a == Suffixed(base, j) && a !in used &&
                    forall i | 2 <= i < j :: Suffixed(base, i) in used;
      var k: nat :| k >= 2 && b == Suffixed(base, k) && b !in used &&
                    forall i | 2 <= i < k :: Suffixed(base, i) in used;
      assert !(j < k) && !(k < j);
    }
  }

  /**
   * The suffix loop. It ends because every name it tried so far is a different member of the
   * finite set of used names: there are never more tries than used names.
   */
  method FirstFree(base: string, used: set<string>) returns (candidate: string)
    ensures candidate !in used
    ensures IsLeastFree(base, used, candidate)
  {
    candidate := base;
    var suffix: nat := 2;
    ghost var tried: set<string> := {};
    while candidate in used
      invariant suffix >= 2
      invariant tried <= used
      invariant suffix == 2 ==> candidate == base && tried == {}
      invariant suffix > 2 ==> candidate == Suffixed(base, suffix - 1) && base in used
      invariant forall j | 2 <= j < suffix - 1 :: Suffixed(base, j) in used
      invariant forall t | t in tried :: t == base || exists j :: 2 <= j < suffix - 1 && t == Suffixed(base, j)
      decreases |used| - |tried|
    {
      assert candidate !in tried by {
        if candidate in tried {
          SuffixedIsLonger(base, suffix - 1);
          var j :| 2 <= j < suffix - 1 && candidate == Suffixed(base, j);
          SuffixedInjective(base, j, suffix - 1);
        }
      }
      CardinalityOfSubset(tried + {candidate}, used);
      tried := tried + {candidate};
      candidate := Suffixed(base, suffix);
      suffix := suffix + 1;
    }
    if base in used {
      assert suffix - 1 >= 2 && candidate == Suffixed(base, suffix - 1);
    }
  }

  lemma {:induction false} CardinalityOfSubset<T>(a: set<T>, b: set<T>)
    requires a <= b
    ensures |a| <= |b|
  {
    if a != {} {
      var x :| x in a;
      CardinalityOfSubset(a - {x}, b - {x});
    }
  }

  function Elements(chosen: seq<string>): set<string> {
    set c | c in chosen
  }

  /** The names chosen for a list of bases: each one is the least free one given the names before it. */
  ghost predicate IsAllocation(reserved: set<string>, bases: seq<string>, chosen: seq<string>) {
    && |chosen| == |bases|
    && (bases == [] ||
        var i := |bases| - 1;
        && IsAllocation(reserved, bases[..i], chosen[..i])
        && IsLeastFree(bases[i], reserved + Elements(chosen[..i]), chosen[i]))
  }

  /** The resulting dictionary: a slot listed twice keeps the name it was given last. */
  function NameMap(ids: seq<SlotId>, chosen: seq<string>): map<SlotId, string>
    requires |chosen| == |ids|
  {
    if ids == [] then map[]
    else NameMap(ids[..|ids| - 1], chosen[..|ids| - 1])[ids[|ids| - 1] := chosen[|ids| - 1]]
  }

  ghost predicate Injective(names: map<SlotId, string>) {
    forall a, b | a in names && b in names && names[a] == names[b] :: a == b
  }

  function Ids(nodes: seq<Slot>): (ids: seq<SlotId>)
    ensures |ids| == |nodes| && forall i | 0 <= i < |nodes| :: ids[i] == nodes[i].id
  {
    seq(|nodes|, i requires 0 <= i < |nodes| => nodes[i].id)
  }

  function Bases(nodes: seq<Slot>): (bases: seq<string>)
    ensures |bases| == |nodes| && forall i | 0 <= i < |nodes| :: bases[i] == BaseName(nodes[i].name)
  {
    seq(|nodes|, i requires 0 <= i < |nodes| => BaseName(nodes[i].name))
  }

  lemma {:induction false} AllocationAvoids(reserved: set<string>, bases: seq<string>, chosen: seq<string>)
    requires IsAllocation(reserved, bases, chosen)
    ensures forall i, j | 0 <= i < j < |chosen| :: chosen[i] != chosen[j]
    ensures forall c | c in chosen :: c !in reserved
  {
    if bases != [] {
      var i := |bases| - 1;
      AllocationAvoids(reserved, bases[..i], chosen[..i]);
      assert chosen == chosen[..i] + [chosen[i]];
      assert chosen[i] !in chosen[..i];
      forall h, j | 0 <= h < j < |chosen| ensures chosen[h] != chosen[j] {
        assert chosen[h] == chosen[..j][h];
        if j == i {
          assert chosen[h] in chosen[..i];
        }
      }
    }
  }

  lemma {:induction false} NameMapIsInjective(ids: seq<SlotId>, chosen: seq<string>)
    requires |chosen| == |ids|
    requires forall i, j | 0 <= i < j < |chosen| :: chosen[i] != chosen[j]
    ensures NameMap(ids, chosen).Keys == set id | id in ids
    ensures forall id | id in NameMap(ids, chosen) :: NameMap(ids, chosen)[id] in chosen
    ensures Injective(NameMap(ids, chosen))
  {
    if ids != [] {
      var i := |ids| - 1;
      NameMapIsInjective(ids[..i], chosen[..i]);
      assert ids == ids[..i] + [ids[i]];
      assert chosen[i] !in chosen[..i];
    }
  }

  lemma Extend(reserved: set<string>, ids: seq<SlotId>, bases: seq<string>, chosen: seq<string>,
               id: SlotId, base: string, name: string)
    requires |ids| == |bases| && IsAllocation(reserved, bases, chosen)
    requires IsLeastFree(base, reserved + Elements(chosen), name)
    ensures IsAllocation(reserved, bases + [base], chosen + [name])
    ensures NameMap(ids + [id], chosen + [name]) == NameMap(ids, chosen)[id := name]
    ensures Elements(chosen + [name]) == Elements(chosen) + {name}
  {
    assert (ids + [id])[..|ids|] == ids && (bases + [base])[..|bases|] == bases;
    assert (chosen + [name])[..|chosen|] == chosen;
  }

  lemma NextAllocation(reserved: set<string>, ids: seq<SlotId>, bases: seq<string>, chosen: seq<string>, name: string)
    requires |ids| == |bases| && |chosen| < |ids|
    requires IsAllocation(reserved, bases[..|chosen|], chosen)
    requires IsLeastFree(bases[|chosen|], reserved + Elements(chosen), name)
    ensures var i := |chosen|;
            && IsAllocation(reserved, bases[..i + 1], chosen + [name])
            && NameMap(ids[..i + 1], chosen + [name]) == NameMap(ids[..i], chosen)[ids[i] := name]
            && Elements(chosen + [name]) == Elements(chosen) + {name}
  {
    var i := |chosen|;
    assert ids[..i + 1] == ids[..i] + [ids[i]] && bases[..i + 1] == bases[..i] + [bases[i]];
    Extend(reserved, ids[..i], bases[..i], chosen, ids[i], bases[i], name);
  }

  /** The loop over the slots, on their ids and bases. */
  method AllocateNames(reserved: set<string>, ids: seq<SlotId>, bases: seq<string>)
    returns (names: map<SlotId, string>, ghost chosen: seq<string>)
    requires |ids| == |bases|
    ensures IsAllocation(reserved, bases, chosen) && names == NameMap(ids, chosen)
  {
    var used := reserved;
    names := map[];
    chosen := [];
    for i := 0 to |ids|
      invariant |chosen| == i
      invariant used == reserved + Elements(chosen)
      invariant IsAllocation(reserved, bases[..i], chosen)
      invariant names == NameMap(ids[..i], chosen)
    {
      var candidate := FirstFree(bases[i], used);
      NextAllocation(reserved, ids, bases, chosen, candidate);
      used := used + {candidate};
      names := names[ids[i] := candidate];
      chosen := chosen + [candidate];
    }
    assert ids[..|ids|] == ids && bases[..|ids|] == bases;
  }

  method InputAttachmentFieldNames(nodes: seq<Slot>) returns (names: map<SlotId, string>, ghost chosen: seq<string>)
    ensures names.Keys == set n | n in nodes :: n.id
    ensures Injective(names)
    ensures forall id | id in names :: names[id] !in RESERVED_NAMES && IsIdentifier(names[id])
    ensures IsAllocation(RESERVED_NAMES, Bases(nodes), chosen) && names == NameMap(Ids(nodes), chosen)
  {
    names, chosen := AllocateNames(RESERVED_NAMES, Ids(nodes), Bases(nodes));
    AllocationAvoids(RESERVED_NAMES, Bases(nodes), chosen);
    NameMapIsInjective(Ids(nodes), chosen);
    IdsOfSlots(nodes);
    BasesAreIdentifiers(nodes);
    ChosenAreIdentifiers(RESERVED_NAMES, Bases(nodes), chosen);
  }

  lemma IdsOfSlots(nodes: seq<Slot>)
    ensures (set id | id in Ids(nodes)) == set n | n in nodes :: n.id
  {
    forall n | n in nodes ensures n.id in Ids(nodes) {
      var i :| 0 <= i < |nodes| && nodes[i] == n;
      assert Ids(nodes)[i] == n.id;
    }
  }

  lemma BasesAreIdentifiers(nodes: seq<Slot>)
    ensures forall i | 0 <= i < |nodes| :: IsIdentifier(Bases(nodes)[i])
  {
    forall i | 0 <= i < |nodes| ensures IsIdentifier(Bases(nodes)[i]) {
      BaseNameIsIdentifier(nodes[i].name);
    }
  }

  lemma CandidateIsIdentifier(base: string, used: set<string>, candidate: string)
    requires IsIdentifier(base) && IsLeastFree(base, used, candidate)
    ensures IsIdentifier(candidate)
  {
    if base in used {
      var k: nat :| k >= 2 && candidate == Suffixed(base, k);
      DigitsAreFieldChars(k);
      assert candidate[0] == base[0];
    }
  }

  lemma {:induction false} DigitsAreFieldChars(n: nat)
    ensures forall c | c in Digits(n) :: IsFieldChar(c)
  {
    if n >= 10 {
      DigitsAreFieldChars(n / 10);
    }
  }

  lemma {:induction false} ChosenAreIdentifiers(reserved: set<string>, bases: seq<string>, chosen: seq<string>)
    requires IsAllocation(reserved, bases, chosen)
    requires forall i | 0 <= i < |bases| :: IsIdentifier(bases[i])
    ensures forall c | c in chosen :: IsIdentifier(c)
  {
    if bases != [] {
      var i := |bases| - 1;
      ChosenAreIdentifiers(reserved, bases[..i], chosen[..i]);
      CandidateIsIdentifier(bases[i], reserved + Elements(chosen[..i]), chosen[i]);
      assert chosen == chosen[..i] + [chosen[i]];
    }
  }

  lemma {:induction false} AllocationIsUnique(reserved: set<string>, bases: seq<string>, a: seq<string>, b: seq<string>)
    requires IsAllocation(reserved, bases, a) && IsAllocation(reserved, bases, b)
    ensures a == b
  {
    if bases != [] {
      var i := |bases| - 1;
      AllocationIsUnique(reserved, bases[..i], a[..i], b[..i]);
      LeastFreeIsUnique(bases[i], reserved + Elements(a[..i]), a[i], b[i]);
      assert a == a[..i] + [a[i]] && b == b[..i] + [b[i]];
    }
  }

  lemma {:induction false} AllocationPrefix(reserved: set<string>, bases: seq<string>, a: seq<string>, k: nat)
    requires k <= |bases| && IsAllocation(reserved, bases, a)
    ensures IsAllocation(reserved, bases[..k], a[..k])
  {
    if k == |bases| {
      assert bases[..k] == bases && a[..k] == a;
    } else {
      var i := |bases| - 1;
      AllocationPrefix(reserved, bases[..i], a[..i], k);
      assert bases[..i][..k] == bases[..k] && a[..i][..k] == a[..k];
    }
  }

  /**
   * Names are stable: there is one allocation for a list of slots, and the slots listed first
   * get the same names whatever slots follow them.
   */
  lemma AllocationIsStable(reserved: set<string>, bases: seq<string>, a: seq<string>, longer: seq<string>, b: seq<string>)
    requires bases <= longer
    requires IsAllocation(reserved, bases, a) && IsAllocation(reserved, longer, b)
    ensures a == b[..|a|]
  {
    AllocationPrefix(reserved, longer, b, |bases|);
    assert longer[..|bases|] == bases;
    AllocationIsUnique(reserved, bases, a, b[..|a|]);
  }
}
