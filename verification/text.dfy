/** ASCII case mapping, standing in for Python's `str.upper()` on trip names. */
module Text {

  predicate IsLowerAscii(c: char) {
    'a' <= c <= 'z'
  }

  /** Maps `a`..`z` to `A`..`Z` and leaves every other character alone. */
  function UpperChar(c: char): (u: char)
    ensures !IsLowerAscii(u)
  {
    if IsLowerAscii(c) then (c as int - 32) as char else c
  }

  /** A string no character of which would be changed by uppercasing. */
  predicate IsUpperCase(s: string) {
    forall i | 0 <= i < |s| :: !IsLowerAscii(s[i])
  }

  /** The uppercased copy of `s`: same length, each character mapped on its own. */
  function Upper(s: string): (r: string)
    ensures |r| == |s|
    ensures forall i | 0 <= i < |s| :: r[i] == UpperChar(s[i])
  {
    if s == [] then [] else [UpperChar(s[0])] + Upper(s[1..])
  }

  /** Every uppercased string is in upper case. */
  lemma UpperIsUpperCase(s: string)
    ensures IsUpperCase(Upper(s))
  {
  }

  /** A string is a fixed point of `Upper` exactly when it is in upper case. */
  lemma UpperFixedPoint(s: string)
    ensures Upper(s) == s <==> IsUpperCase(s)
  {
    if IsUpperCase(s) {
      assert forall i | 0 <= i < |s| :: Upper(s)[i] == s[i];
    }
  }

  /** Uppercasing twice is uppercasing once. */
  lemma UpperIdempotent(s: string)
    ensures Upper(Upper(s)) == Upper(s)
  {
    UpperIsUpperCase(s);
    UpperFixedPoint(Upper(s));
  }
}
