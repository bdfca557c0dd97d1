/** Substring search. */
module Texts {
  ghost predicate OccursAt(text: string, w: string, i: int) {
    0 <= i && i + |w| <= |text| && text[i..i + |w|] == w
  }

  ghost predicate Contains(text: string, w: string) {
    exists i :: OccursAt(text, w, i)
  }

  method Includes(text: string, w: string) returns (found: bool)
    ensures found <==> Contains(text, w)
  {
    var i := 0;
    while i + |w| <= |text|
      invariant forall j | 0 <= j < i :: !OccursAt(text, w, j)
    {
      if text[i..i + |w|] == w {
        assert OccursAt(text, w, i);
        return true;
      }
      i := i + 1;
    }
    found := false;
  }
}
