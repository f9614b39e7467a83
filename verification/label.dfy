/**
 * The composite label of the "Delete an Expense" flow,
 * `"ID: {id} | {category} | {amount} | {description}"`, and the parse that
 * recovers the id from it: `int(label.split(" | ")[0].replace("ID:", "").strip())`.
 * Each Python string operation used by the parse is modelled on its own.
 */
module ExpenseLabel {
  import opened Wrappers

  const Separator: string := " | "
  const IdTag: string := "ID:"

  // ---------------------------------------------------------------- digits

  predicate IsDigit(c: char) {
    '0' <= c <= '9'
  }

  predicate AllDigits(s: string) {
    forall i | 0 <= i < |s| :: IsDigit(s[i])
  }

  function DigitChar(d: nat): (c: char)
    requires d < 10
    ensures IsDigit(c)
  {
    ('0' as int + d) as char
  }

  function DigitValue(c: char): nat
    requires IsDigit(c)
  {
    c as int - '0' as int
  }

  /** Python's `str(n)` for a non-negative integer: decimal, no leading zeros. */
  function NatToString(n: nat): (r: string)
    ensures |r| > 0 && AllDigits(r)
    ensures |r| > 1 ==> r[0] != '0'
    decreases n
  {
    if n < 10 then [DigitChar(n)] else NatToString(n / 10) + [DigitChar(n % 10)]
  }

  /** The value of a string of decimal digits, most significant first. */
  function DigitsValue(s: string): nat
    requires AllDigits(s)
    decreases |s|
  {
    if s == [] then 0 else DigitsValue(s[..|s| - 1]) * 10 + DigitValue(s[|s| - 1])
  }

  /** Reading back the decimal text of `n` gives `n`. */
  lemma {:induction false} NatToStringRoundTrip(n: nat)
    ensures DigitsValue(NatToString(n)) == n
    decreases n
  {
    var s := NatToString(n);
    if n >= 10 {
      assert s[..|s| - 1] == NatToString(n / 10);
      NatToStringRoundTrip(n / 10);
    }
  }

  // ------------------------------------------------------------ whitespace

  /** Python's `str.isspace()` for one character. */
  predicate IsSpace(c: char) {
    var k := c as int;
    || k == 0x20 || 0x09 <= k <= 0x0D || 0x1C <= k <= 0x1F
    || k == 0x85 || k == 0xA0 || k == 0x1680 || 0x2000 <= k <= 0x200A
    || k == 0x2028 || k == 0x2029 || k == 0x202F || k == 0x205F || k == 0x3000
  }

  /** `s.lstrip()`: the longest all-whitespace prefix removed. */
  function StripLeading(s: string): (r: string)
    ensures |r| <= |s| && r == s[|s| - |r|..]
    ensures forall i | 0 <= i < |s| - |r| :: IsSpace(s[i])
    ensures r == [] || !IsSpace(r[0])
    decreases |s|
  {
    if s != [] && IsSpace(s[0]) then StripLeading(s[1..]) else s
  }

  /** `s.rstrip()`: the longest all-whitespace suffix removed. */
  function StripTrailing(s: string): (r: string)
    ensures r <= s
    ensures forall i | |r| <= i < |s| :: IsSpace(s[i])
    ensures r == [] || !IsSpace(r[|r| - 1])
    decreases |s|
  {
    if s != [] && IsSpace(s[|s| - 1]) then StripTrailing(s[..|s| - 1]) else s
  }

  /** Neither the first nor the last character of `r` is whitespace. */
  predicate NoSpaceAtEnds(r: string) {
    r == [] || (!IsSpace(r[0]) && !IsSpace(r[|r| - 1]))
  }

  /** `r` is the slice of `s` at `a`, with only whitespace on either side of it. */
  predicate StrippedAt(s: string, r: string, a: int) {
    && 0 <= a <= |s| - |r|
    && r == s[a..a + |r|]
    && (forall i | 0 <= i < a :: IsSpace(s[i]))
    && (forall i | a + |r| <= i < |s| :: IsSpace(s[i]))
  }

  /**
   * Python's `str.strip()` with no argument: the slice of `s` left after
   * whitespace is removed from both ends.
   */
  function Strip(s: string): (r: string)
    ensures exists a :: StrippedAt(s, r, a)
    ensures NoSpaceAtEnds(r)
    ensures s == [] || (!IsSpace(s[0]) && !IsSpace(s[|s| - 1])) ==> r == s
  {
    var t := StripLeading(s);
    var r := StripTrailing(t);
    StripFacts(s);
    assert StrippedAt(s, r, |s| - |t|);
    r
  }

  /** The contract of `Strip`, for the composition of the two one-sided strips. */
  lemma StripFacts(s: string)
    ensures var t := StripLeading(s);
      var r := StripTrailing(t);
      && StrippedAt(s, r, |s| - |t|)
      && (r == [] || (!IsSpace(r[0]) && !IsSpace(r[|r| - 1])))
      && (s == [] || (!IsSpace(s[0]) && !IsSpace(s[|s| - 1])) ==> r == s)
  {
    var t := StripLeading(s);
    StripBothEnds(s);
    StripBothKeeps(s);
    hide StripLeading, StripTrailing;
    assert StrippedAt(s, StripTrailing(t), |s| - |t|);
  }

  /** Text that does not start with whitespace is left alone by `lstrip()`. */
  lemma StripLeadingKeeps(s: string)
    ensures s == [] || !IsSpace(s[0]) ==> StripLeading(s) == s
  {
  }

  /** A leading whitespace character is removed by `lstrip()`. */
  lemma StripLeadingSpace(s: string)
    requires |s| > 0 && IsSpace(s[0])
    ensures StripLeading(s) == StripLeading(s[1..])
  {
  }

  /** Text that does not end with whitespace is left alone by `rstrip()`. */
  lemma StripTrailingKeeps(s: string)
    ensures s == [] || !IsSpace(s[|s| - 1]) ==> StripTrailing(s) == s
  {
  }

  /** Text with no whitespace at either end survives both strips. */
  lemma StripBothKeeps(s: string)
    ensures s == [] || (!IsSpace(s[0]) && !IsSpace(s[|s| - 1])) ==> StripTrailing(StripLeading(s)) == s
  {
    hide StripLeading, StripTrailing;
    StripLeadingKeeps(s);
    StripTrailingKeeps(s);
  }

  /** Stripping the front and then the back leaves a slice with whitespace only around it. */
  lemma StripBothEnds(s: string)
    ensures var t := StripLeading(s);
      var u := StripTrailing(t);
      && StrippedAt(s, u, |s| - |t|)
      && (u == [] || (!IsSpace(u[0]) && !IsSpace(u[|u| - 1])))
  {
    var t := StripLeading(s);
    var u := StripTrailing(t);
    var a := |s| - |t|;
    hide StripLeading, StripTrailing;
    assert t == s[a..];
    assert u == t[..|u|];
    assert u == s[a..a + |u|];
    forall i | a + |u| <= i < |s|
      ensures IsSpace(s[i])
    {
      assert s[i] == t[i - a];
    }
    assert u != [] ==> u[0] == t[0];
  }

  // -------------------------------------------------------------- int()

  /** An optional sign followed by decimal digits, nothing else. */
  function ParseSigned(t: string): (r: Option<int>)
    ensures r.Some? ==> t != [] && (r.value < 0 ==> t[0] == '-')
  {
    if t != [] && (t[0] == '-' || t[0] == '+') then
      var digits := t[1..];
      if digits != [] && AllDigits(digits) then
        var v := if t[0] == '-' then -(DigitsValue(digits) as int) else DigitsValue(digits) as int;
        Some(v)
      else None
    else if t != [] && AllDigits(t) then Some(DigitsValue(t))
    else None
  }

  /** A digit string has no whitespace at its ends for `strip()` to remove. */
  lemma DigitsUnstripped(s: string)
    ensures |s| > 0 && AllDigits(s) ==> Strip(s) == s
  {
    if |s| > 0 && AllDigits(s) {
      assert IsDigit(s[0]) && IsDigit(s[|s| - 1]);
      assert !IsSpace(s[0]) && !IsSpace(s[|s| - 1]);
    }
  }

  /** A digit string carries no sign and is read as its value. */
  lemma UnsignedDigits(digits: string)
    ensures |digits| > 0 && AllDigits(digits) ==> ParseSigned(digits) == Some(DigitsValue(digits))
  {
    if |digits| > 0 && AllDigits(digits) {
      assert IsDigit(digits[0]);
    }
  }

  /**
   * Python's `int(s)` on a string, `None` where Python raises `ValueError`:
   * `str.isspace()` characters around the number are ignored (a superset of
   * what `int()` skips), a plain digit string is read as
   * its decimal value, and only a leading minus gives a negative number.
   */
  function ParseInt(s: string): (r: Option<int>)
    ensures |s| > 0 && AllDigits(s) ==> r == Some(DigitsValue(s))
    ensures r.Some? ==> Strip(s) != [] && (r.value < 0 ==> Strip(s)[0] == '-')
  {
    DigitsUnstripped(s);
    UnsignedDigits(s);
    ParseSigned(Strip(s))
  }

  // ------------------------------------------------------- split, replace

  /** `s.split(sep)[0]`: everything before the first occurrence of `sep`. */
  function BeforeFirst(s: string, sep: string): (r: string)
    requires |sep| > 0
    ensures r <= s
    ensures forall i | 0 <= i < |r| :: !(sep <= s[i..])
    ensures |r| == |s| || sep <= s[|r|..]
    decreases |s|
  {
    if sep <= s then []
    else if s == [] then []
    else
      var rest := BeforeFirst(s[1..], sep);
      assert forall i | 1 <= i < 1 + |rest| :: s[i..] == s[1..][i - 1..];
      [s[0]] + rest
  }

  /** `s.replace(pat, "")`: occurrences removed left to right, without overlap. */
  function RemoveAll(s: string, pat: string): (r: string)
    requires |pat| > 0
    ensures |r| <= |s|
    ensures pat <= s ==> |r| + |pat| <= |s|
    ensures (forall i | 0 <= i <= |s| :: !(pat <= s[i..])) ==> r == s
    decreases |s|
  {
    if pat <= s then
      assert s[0..] == s;
      RemoveAll(s[|pat|..], pat)
    else if s == [] then []
    else
      assert forall i | 0 <= i <= |s| - 1 :: s[1..][i..] == s[i + 1..];
      [s[0]] + RemoveAll(s[1..], pat)
  }

  /** An occurrence at the front is dropped and the scan resumes right after it. */
  lemma RemoveAllLeading(pat: string, t: string)
    requires |pat| > 0
    ensures RemoveAll(pat + t, pat) == RemoveAll(t, pat)
  {
    assert (pat + t)[|pat|..] == t;
  }

  /** Where no occurrence starts, the first character is kept. */
  lemma RemoveAllStep(s: string, pat: string)
    requires |pat| > 0 && s != [] && !(pat <= s)
    ensures RemoveAll(s, pat) == [s[0]] + RemoveAll(s[1..], pat)
  {
  }

  /**
   * Text in which no occurrence starts is copied through unchanged, and the
   * removal carries on in what follows it.
   */
  lemma {:induction false} RemoveAllKeeps(u: string, t: string, pat: string)
    requires |pat| > 0
    requires forall i | 0 <= i < |u| :: !(pat <= (u + t)[i..])
    ensures RemoveAll(u + t, pat) == u + RemoveAll(t, pat)
    decreases |u|
  {
    hide RemoveAll;
    if u != [] {
      var s := u + t;
      var tail := u[1..] + t;
      assert !(pat <= s[0..]);
      assert s[0..] == s;
      assert s[1..] == tail;
      RemoveAllStep(s, pat);
      forall i | 0 <= i < |u| - 1
        ensures !(pat <= tail[i..])
      {
        assert tail[i..] == s[i + 1..];
      }
      RemoveAllKeeps(u[1..], t, pat);
      assert u == [u[0]] + u[1..];
    } else {
      assert u + t == t;
    }
  }

  // ------------------------------------------------------- the label itself

  /**
   * The option text shown for one expense; `amountText` is the float's
   * rendering. Whatever the other fields hold, the text up to the first
   * separator is the tag and the decimal id.
   */
  function FormatLabel(id: nat, category: string, amountText: string, description: string): (r: string)
    ensures BeforeFirst(r, Separator) == IdTag + " " + NatToString(id)
    ensures IdTag + " " + NatToString(id) + Separator <= r
  {
    var rest := category + Separator + amountText + Separator + description;
    var r := IdTag + " " + NatToString(id) + Separator + category + Separator + amountText + Separator + description;
    assert r == IdTag + " " + NatToString(id) + Separator + rest;
    FirstSegment(NatToString(id), rest);
    r
  }

  /**
   * The id recovered from a selected option, `None` where `int()` would
   * raise. Text without a separator and without the tag is read by `int()`
   * as it stands.
   */
  function ParseLabel(option: string): (r: Option<int>)
    ensures (forall i | 0 <= i <= |option| :: !(Separator <= option[i..]))
      && (forall i | 0 <= i <= |option| :: !(IdTag <= option[i..]))
      ==> r == ParseInt(option)
  {
    var segment := BeforeFirst(option, Separator);
    var untagged := RemoveAll(segment, IdTag);
    assert (forall i | 0 <= i <= |option| :: !(Separator <= option[i..])) ==> segment == option;
    ParseInt(Strip(untagged))
  }

  /** The first segment of a label is `"ID: " + digits`, whatever follows it. */
  lemma FirstSegment(digits: string, rest: string)
    requires |digits| > 0 && AllDigits(digits)
    ensures BeforeFirst(IdTag + " " + digits + Separator + rest, Separator) == IdTag + " " + digits
  {
    var head := IdTag + " " + digits;
    var text := head + Separator + rest;
    var p := |head|;
    assert text[p..] == Separator + rest;
    assert Separator <= text[p..];
    forall i | 0 <= i < p
      ensures !(Separator <= text[i..])
    {
      if i == 3 {
        assert text[i..][1] == digits[0];
      } else {
        assert text[i..][0] == head[i];
      }
    }
    var r := BeforeFirst(text, Separator);
    assert |r| == p;
    assert text[..p] == head;
  }

  /** The space after the tag is stripped, the digits are kept. */
  lemma StripSpacedDigits(digits: string)
    requires |digits| > 0 && AllDigits(digits)
    ensures Strip(" " + digits) == digits
  {
    var s := " " + digits;
    assert s[1..] == digits;
    assert IsDigit(digits[0]) && IsDigit(digits[|digits| - 1]);
    assert IsSpace(s[0]) && !IsSpace(digits[0]) && !IsSpace(digits[|digits| - 1]);
    hide AllDigits, IsSpace, StripLeading, StripTrailing;
    StripLeadingSpace(s);
    StripLeadingKeeps(digits);
    StripTrailingKeeps(digits);
  }

  /** `"ID: " + digits` with every "ID:" removed is `" " + digits`. */
  lemma TagRemoved(digits: string)
    requires |digits| > 0 && AllDigits(digits)
    ensures RemoveAll(IdTag + " " + digits, IdTag) == " " + digits
  {
    hide RemoveAll;
    var t := " " + digits;
    assert IdTag + " " + digits == IdTag + t;
    RemoveAllLeading(IdTag, t);
    NoTagInSpacedDigits(digits);
  }

  /** `" " + digits` holds no occurrence of the tag. */
  lemma NoTagInSpacedDigits(digits: string)
    requires AllDigits(digits)
    ensures var t := " " + digits;
      forall i | 0 <= i <= |t| :: !(IdTag <= t[i..])
  {
    var t := " " + digits;
    forall i | 0 <= i <= |t|
      ensures !(IdTag <= t[i..])
    {
      if i < |t| {
        assert t[i..][0] == t[i];
        if i > 0 {
          assert t[i] == digits[i - 1] && IsDigit(digits[i - 1]);
        }
        assert t[i] != IdTag[0];
      }
    }
  }

  /**
   * The parse recovers the id for every category, amount text and
   * description, including ones that contain `" | "` or `"ID:"`.
   */
  lemma LabelRoundTrip(id: nat, category: string, amountText: string, description: string)
    ensures ParseLabel(FormatLabel(id, category, amountText, description)) == Some(id)
  {
    var digits := NatToString(id);
    var rest := category + Separator + amountText + Separator + description;
    assert FormatLabel(id, category, amountText, description) == IdTag + " " + digits + Separator + rest;
    TagRemoved(digits);
    StripSpacedDigits(digits);
    NatToStringRoundTrip(id);
  }
}
