/** ASCII case-insensitive comparison of strings, the way Rust's
    `str::eq_ignore_ascii_case` compares them: equal lengths, and equal
    characters once 'A'..'Z' are folded to 'a'..'z'; every other character
    is compared as it is. */
module AsciiCase {

  /** The 26 upper-case ASCII letters. */
  predicate IsAsciiUpper(c: char) {
    'A' <= c <= 'Z'
  }

  /** Folds one character to lower case; only ASCII letters are affected. */
  function ToAsciiLower(c: char): char {
    if IsAsciiUpper(c) then (c as int - 'A' as int + 'a' as int) as char else c
  }

  /** Folding leaves no upper-case letter behind, changes nothing but the
      upper-case letters, and maps each of those to the lower-case letter at
      the same place in the alphabet. */
  lemma ToAsciiLowerFoldsOnlyUpperCase(c: char)
    ensures !IsAsciiUpper(ToAsciiLower(c))
    ensures !IsAsciiUpper(c) ==> ToAsciiLower(c) == c
    ensures IsAsciiUpper(c) ==>
              'a' <= ToAsciiLower(c) <= 'z' && ToAsciiLower(c) as int - 'a' as int == c as int - 'A' as int
  {
  }

  /** Positions `i` .. |a|-1 of two equally long strings agree after folding
      (the pairwise `all` over the zipped characters). */
  predicate FoldedEqualFrom(a: string, b: string, i: nat)
    requires |a| == |b| && i <= |a|
    decreases |a| - i
  {
    i == |a| || (ToAsciiLower(a[i]) == ToAsciiLower(b[i]) && FoldedEqualFrom(a, b, i + 1))
  }

  /** `a.eq_ignore_ascii_case(b)`. */
  predicate EqualsIgnoreAsciiCase(a: string, b: string) {
    |a| == |b| && FoldedEqualFrom(a, b, 0)
  }

  /** The recursive comparison agrees with the position-wise statement. */
  lemma {:induction false} FoldedEqualFromAgrees(a: string, b: string, i: nat)
    requires |a| == |b| && i <= |a|
    ensures FoldedEqualFrom(a, b, i) <==>
              forall k :: i <= k < |a| ==> ToAsciiLower(a[k]) == ToAsciiLower(b[k])
    decreases |a| - i
  {
    if i < |a| {
      FoldedEqualFromAgrees(a, b, i + 1);
    }
  }

  /** Equal ignoring ASCII case: same length and, position by position, the
      same character after folding. */
  lemma EqualsIgnoreAsciiCaseAgrees(a: string, b: string)
    ensures EqualsIgnoreAsciiCase(a, b) <==>
              |a| == |b| && forall k :: 0 <= k < |a| ==> ToAsciiLower(a[k]) == ToAsciiLower(b[k])
  {
    if |a| == |b| {
      FoldedEqualFromAgrees(a, b, 0);
    }
  }

  /** The whole string folded to lower case: an independent description of
      what case-insensitive equality identifies. */
  function FoldAscii(s: string): (r: string)
    ensures |r| == |s|
    ensures forall k :: 0 <= k < |s| ==> r[k] == ToAsciiLower(s[k])
  {
    seq(|s|, k requires 0 <= k < |s| => ToAsciiLower(s[k]))
  }

  /** Two strings are equal ignoring ASCII case exactly when their folded
      forms are equal. */
  lemma EqualsIgnoreAsciiCaseIffFoldedEqual(a: string, b: string)
    ensures EqualsIgnoreAsciiCase(a, b) <==> FoldAscii(a) == FoldAscii(b)
  {
    EqualsIgnoreAsciiCaseAgrees(a, b);
    if FoldAscii(a) == FoldAscii(b) {
      forall k | 0 <= k < |a|
        ensures ToAsciiLower(a[k]) == ToAsciiLower(b[k])
      {
        assert FoldAscii(a)[k] == FoldAscii(b)[k];
      }
    }
  }

  /** Case-insensitive equality is an equivalence relation. */
  lemma EqualsIgnoreAsciiCaseIsEquivalence(a: string, b: string, c: string)
    ensures EqualsIgnoreAsciiCase(a, a)
    ensures EqualsIgnoreAsciiCase(a, b) ==> EqualsIgnoreAsciiCase(b, a)
    ensures EqualsIgnoreAsciiCase(a, b) && EqualsIgnoreAsciiCase(b, c) ==> EqualsIgnoreAsciiCase(a, c)
  {
    EqualsIgnoreAsciiCaseIffFoldedEqual(a, a);
    EqualsIgnoreAsciiCaseIffFoldedEqual(a, b);
    EqualsIgnoreAsciiCaseIffFoldedEqual(b, a);
    EqualsIgnoreAsciiCaseIffFoldedEqual(b, c);
    EqualsIgnoreAsciiCaseIffFoldedEqual(a, c);
  }
}
