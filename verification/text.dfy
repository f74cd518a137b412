/**
 * ASCII text helpers: the stand-in for Python's `str.lower()` and for
 * searching a character in a string.
 */
module Text {

  predicate IsUpperChar(c: char)
  {
    'A' <= c <= 'Z'
  }

  /** Maps an ASCII capital letter to its small letter; every other character is kept. */
  function LowerChar(c: char): (r: char)
    ensures !IsUpperChar(r)
    ensures !IsUpperChar(c) ==> r == c
  {
    if IsUpperChar(c) then (c as int + 32) as char else c
  }

  /** `s.lower()`, restricted to ASCII. */
  function Lower(s: string): (r: string)
    ensures |r| == |s|
    ensures forall i :: 0 <= i < |s| ==> r[i] == LowerChar(s[i])
  {
    if |s| == 0 then "" else [LowerChar(s[0])] + Lower(s[1..])
  }

  /** The string has no capital letters. */
  predicate IsLower(s: string)
  {
    forall i :: 0 <= i < |s| ==> !IsUpperChar(s[i])
  }

  /** The two strings are equal once capital letters are disregarded. */
  predicate EqualsIgnoreCase(a: string, b: string)
  {
    |a| == |b| && forall i :: 0 <= i < |a| ==> LowerChar(a[i]) == LowerChar(b[i])
  }

  /** Lower-casing yields a lower-case string, and lower-casing it again changes nothing. */
  lemma LowerIsIdempotent(s: string)
    ensures IsLower(Lower(s))
    ensures Lower(Lower(s)) == Lower(s)
  {
  }

  /** For a lower-case `n`, `Lower(p) == n` exactly when `p` spells `n` in any mix of cases. */
  lemma LowerEqualsIffIgnoreCase(p: string, n: string)
    requires IsLower(n)
    ensures Lower(p) == n <==> EqualsIgnoreCase(p, n)
  {
    if EqualsIgnoreCase(p, n) {
      assert forall i :: 0 <= i < |n| ==> Lower(p)[i] == n[i];
    }
  }
}
