/**
 * The two string operations `get_cards` uses: `str.lower()` and the
 * substring test `needle in haystack`.
 */
module Text {

  function LowerChar(c: char): char {
    if 'A' <= c <= 'Z' then (c as int - 'A' as int + 'a' as int) as char else c
  }

  /** `s.lower()`, for the ASCII letters. */
  function Lower(s: string): (r: string)
    ensures |r| == |s|
    ensures forall i :: 0 <= i < |s| ==> r[i] == LowerChar(s[i])
  {
    if s == [] then [] else [LowerChar(s[0])] + Lower(s[1..])
  }

  /** `needle` is a contiguous piece of `s` starting at position `i`. */
  ghost predicate OccursAt(needle: string, s: string, i: int) {
    0 <= i && i + |needle| <= |s| && s[i..i + |needle|] == needle
  }

  /** `needle in s`, scanning the start positions of `s` from the left. */
  predicate Contains(s: string, needle: string): (r: bool)
    ensures r ==> |needle| <= |s|
    decreases |s|
  {
    (|needle| <= |s| && s[..|needle|] == needle)
    || (s != [] && Contains(s[1..], needle))
  }

  /** An occurrence in the tail is an occurrence one position further on, and back. */
  lemma OccursInTail(s: string, needle: string)
    requires s != []
    ensures (exists i :: OccursAt(needle, s[1..], i)) ==> (exists i :: OccursAt(needle, s, i))
    ensures (exists i :: OccursAt(needle, s, i) && i != 0) ==> (exists i :: OccursAt(needle, s[1..], i))
  {
    if exists i :: OccursAt(needle, s[1..], i) {
      var i :| OccursAt(needle, s[1..], i);
      assert s[i + 1..i + 1 + |needle|] == s[1..][i..i + |needle|];
      assert OccursAt(needle, s, i + 1);
    }
    if exists i :: OccursAt(needle, s, i) && i != 0 {
      var i :| OccursAt(needle, s, i) && i != 0;
      assert s[1..][i - 1..i - 1 + |needle|] == s[i..i + |needle|];
      assert OccursAt(needle, s[1..], i - 1);
    }
  }

  /** The scan finds `needle` exactly when it occurs somewhere in `s`. */
  lemma {:induction false} ContainsIff(s: string, needle: string)
    ensures Contains(s, needle) <==> exists i :: OccursAt(needle, s, i)
    decreases |s|
  {
    if |needle| <= |s| && s[..|needle|] == needle {
      assert OccursAt(needle, s, 0);
    } else if s == [] {
      assert forall i :: !OccursAt(needle, s, i);
    } else {
      ContainsIff(s[1..], needle);
      OccursInTail(s, needle);
      assert !OccursAt(needle, s, 0);
    }
  }

  /** The empty string is a substring of every string. */
  lemma EmptyContained(s: string)
    ensures Contains(s, "")
  {
  }
}
