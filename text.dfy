/**
 * ASCII character classes and the string operations the lineage engine relies on:
 * Python's `str.capitalize()` (first character upper-case, the rest lower-case).
 */
module Text {

  predicate IsUpper(c: char) { 'A' <= c <= 'Z' }

  predicate IsLower(c: char) { 'a' <= c <= 'z' }

  function ToUpper(c: char): char
  {
    if IsLower(c) then (c as int - 32) as char else c
  }

  function ToLower(c: char): char
  {
    if IsUpper(c) then (c as int + 32) as char else c
  }

  /** `s.lower()` on ASCII text. */
  function Lower(s: string): string
  {
    seq(|s|, k requires 0 <= k < |s| => ToLower(s[k]))
  }

  /** `s.capitalize()` on ASCII text. */
  function Capitalize(s: string): string
  {
    if s == [] then [] else [ToUpper(s[0])] + Lower(s[1..])
  }

  /** No lower-case first letter and no upper-case letter after it. */
  predicate IsCapitalized(s: string)
  {
    (s != [] ==> !IsLower(s[0])) && forall k :: 1 <= k < |s| ==> !IsUpper(s[k])
  }

  /** Every capitalised string is in capitalised form, of the same length,
      and agrees with the input letter by letter up to case. */
  lemma CapitalizeShape(s: string)
    ensures |Capitalize(s)| == |s|
    ensures IsCapitalized(Capitalize(s))
    ensures forall k :: 0 <= k < |s| ==> ToLower(Capitalize(s)[k]) == ToLower(s[k])
  {
    if s != [] {
      var c := Capitalize(s);
      var rest := Lower(s[1..]);
      assert c == [ToUpper(s[0])] + rest;
      CaseChars(s[0]);
      forall k | 1 <= k < |s| ensures !IsUpper(c[k]) && ToLower(c[k]) == ToLower(s[k]) {
        assert c[k] == rest[k - 1] == ToLower(s[k]);
        CaseChars(s[k]);
      }
    }
  }

  /** Case conversion of one character: upper-casing leaves no lower-case
      letter and lower-casing no upper-case one, and both agree up to case. */
  lemma CaseChars(ch: char)
    ensures !IsLower(ToUpper(ch)) && ToLower(ToUpper(ch)) == ToLower(ch)
    ensures !IsUpper(ToLower(ch)) && ToLower(ToLower(ch)) == ToLower(ch)
    ensures ToUpper(ToLower(ch)) == ToUpper(ch)
  {
  }

  /** Capitalising leaves a string unchanged exactly when it is already capitalised. */
  lemma CapitalizeFixes(s: string)
    ensures Capitalize(s) == s <==> IsCapitalized(s)
  {
    if IsCapitalized(s) && s != [] {
      assert Lower(s[1..]) == s[1..];
    }
  }

  /** `capitalize()` is idempotent, and ignores the case of its input. */
  lemma CapitalizeIdempotent(s: string)
    ensures Capitalize(Capitalize(s)) == Capitalize(s)
    ensures Capitalize(Lower(s)) == Capitalize(s)
  {
    CapitalizeShape(s);
    CapitalizeFixes(Capitalize(s));
    if s != [] {
      var l := Lower(s);
      CaseChars(s[0]);
      assert Lower(l[1..]) == Lower(s[1..]) by {
        forall k | 0 <= k < |s| - 1 ensures Lower(l[1..])[k] == Lower(s[1..])[k] {
          CaseChars(s[k + 1]);
        }
      }
    }
  }
}
