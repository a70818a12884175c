/** ASCII case mapping and substring search over strings, the two string operations the
    monitor matcher and the USB device normalisation rely on. */
module Ascii {

  predicate IsUpper(c: char) {
    'A' <= c <= 'Z'
  }

  predicate IsLower(c: char) {
    'a' <= c <= 'z'
  }

  /** Distance between an upper-case ASCII letter and its lower-case counterpart. */
  const CaseOffset: int := 'a' as int - 'A' as int

  /** The lower-case form of an ASCII character: letters 'A'..'Z' become 'a'..'z',
      every other character is left as it is. */
  function LowerChar(c: char): (r: char)
    ensures !IsUpper(r)
    ensures r == c <==> !IsUpper(c)
    ensures IsUpper(c) ==> IsLower(r)
  {
    if IsUpper(c) then (c as int + CaseOffset) as char else c
  }

  /** The upper-case form of an ASCII character: letters 'a'..'z' become 'A'..'Z',
      every other character is left as it is. */
  function UpperChar(c: char): (r: char)
    ensures !IsLower(r)
    ensures r == c <==> !IsLower(c)
    ensures IsLower(c) ==> IsUpper(r)
  {
    if IsLower(c) then (c as int - CaseOffset) as char else c
  }

  /** Lower-casing and upper-casing undo each other on letters. */
  lemma LetterCaseRoundTrip(c: char)
    ensures IsUpper(c) ==> UpperChar(LowerChar(c)) == c
    ensures IsLower(c) ==> LowerChar(UpperChar(c)) == c
    ensures LowerChar(UpperChar(c)) == LowerChar(c)
  {
  }

  /** Character-wise ASCII lower-casing of a string. */
  function Lower(s: string): (r: string)
    ensures |r| == |s|
    ensures forall i :: 0 <= i < |s| ==> r[i] == LowerChar(s[i])
  {
    if s == [] then [] else [LowerChar(s[0])] + Lower(s[1..])
  }

  /** Character-wise ASCII upper-casing of a string. */
  function Upper(s: string): (r: string)
    ensures |r| == |s|
    ensures forall i :: 0 <= i < |s| ==> r[i] == UpperChar(s[i])
  {
    if s == [] then [] else [UpperChar(s[0])] + Upper(s[1..])
  }

  /** A string none of whose characters is an upper-case letter. */
  predicate IsLowerCase(s: string) {
    forall i :: 0 <= i < |s| ==> !IsUpper(s[i])
  }

  /** Lower-casing yields a lower-case string, and a lower-case string is its own lower case. */
  lemma LowerCharacterisation(s: string)
    ensures IsLowerCase(Lower(s))
    ensures IsLowerCase(s) <==> Lower(s) == s
  {
  }

  /** Lower-casing twice is lower-casing once. */
  lemma LowerIdempotent(s: string)
    ensures Lower(Lower(s)) == Lower(s)
  {
  }

  /** Lower-casing forgets any earlier upper-casing. */
  lemma LowerOfUpper(s: string)
    ensures Lower(Upper(s)) == Lower(s)
  {
  }

  /** Lower-casing commutes with taking a slice. */
  lemma LowerSlice(s: string, lo: int, hi: int)
    requires 0 <= lo <= hi <= |s|
    ensures Lower(s)[lo..hi] == Lower(s[lo..hi])
  {
  }

  /** `needle` sits in `hay` starting at position `i`. */
  predicate OccursAt(needle: string, hay: string, i: int)
    requires 0 <= i
  {
    i + |needle| <= |hay| && hay[i..i + |needle|] == needle
  }

  /** Substring containment (Rust's `str::contains`): true exactly
      when `needle` occurs somewhere in `hay`. */
  function Contains(hay: string, needle: string): (r: bool)
    ensures r <==> exists i :: 0 <= i <= |hay| - |needle| && OccursAt(needle, hay, i)
    decreases |hay|
  {
    if |needle| > |hay| then false
    else if hay[..|needle|] == needle then (assert OccursAt(needle, hay, 0); true)
    else
      var rest := Contains(hay[1..], needle);
      assert !OccursAt(needle, hay, 0);
      assert forall i :: 1 <= i <= |hay| - |needle| ==>
        (OccursAt(needle, hay, i) <==> OccursAt(needle, hay[1..], i - 1));
      assert rest ==> exists i :: 0 <= i <= |hay| - |needle| && OccursAt(needle, hay, i) by {
        if rest {
          var j :| 0 <= j <= |hay[1..]| - |needle| && OccursAt(needle, hay[1..], j);
          assert OccursAt(needle, hay, j + 1);
        }
      }
      rest
  }
}
