/**
 * The string operations of Python's `str` that the core relies on: whitespace
 * (`str.isspace`, `str.strip`, the regex class `\s`), ASCII case mapping
 * (`str.upper`, `str.lower`), splitting on whitespace runs, joining, and the
 * decimal rendering of an integer (`f"{n}"`).
 */
module Text {

  /** `str.isspace()`: the characters `str.strip()` removes and the regex class `\s` matches. */
  predicate IsSpace(c: char) {
    ('\t' <= c <= '\r') || ('\U{1C}' <= c <= '\U{1F}') || c == ' ' || c == '\U{85}' || c == '\U{A0}'
    || c == '\U{1680}' || ('\U{2000}' <= c <= '\U{200A}') || c == '\U{2028}' || c == '\U{2029}'
    || c == '\U{202F}' || c == '\U{205F}' || c == '\U{3000}'
  }

  predicate IsUpperLetter(c: char) { 'A' <= c <= 'Z' }
  predicate IsLowerLetter(c: char) { 'a' <= c <= 'z' }
  predicate IsDigit(c: char) { '0' <= c <= '9' }

  /** The regex class `[a-z0-9]`. */
  predicate IsLowerAlnum(c: char) { IsLowerLetter(c) || IsDigit(c) }

  function UpperChar(c: char): (r: char)
    ensures !IsLowerLetter(r)
    ensures IsSpace(r) == IsSpace(c)
    ensures IsDigit(c) ==> r == c
  {
    if IsLowerLetter(c) then (c as int - 32) as char else c
  }

  function LowerChar(c: char): (r: char)
    ensures !IsUpperLetter(r)
    ensures IsSpace(r) == IsSpace(c)
    ensures IsDigit(c) ==> r == c
  {
    if IsUpperLetter(c) then (c as int + 32) as char else c
  }

  /** `str.upper()` on the ASCII letters. */
  function Upper(s: string): (r: string)
    ensures |r| == |s|
    ensures forall i | 0 <= i < |s| :: r[i] == UpperChar(s[i])
  {
    seq(|s|, i requires 0 <= i < |s| => UpperChar(s[i]))
  }

  /** `str.lower()` on the ASCII letters. */
  function Lower(s: string): (r: string)
    ensures |r| == |s|
    ensures forall i | 0 <= i < |s| :: r[i] == LowerChar(s[i])
  {
    seq(|s|, i requires 0 <= i < |s| => LowerChar(s[i]))
  }

  /** No lower-case letter: what `s.upper() == s` says of an ASCII string. */
  predicate IsUpperCase(s: string) {
    forall i | 0 <= i < |s| :: !IsLowerLetter(s[i])
  }

  lemma UpperIsUpperCase(s: string)
    ensures IsUpperCase(Upper(s)) && Upper(Upper(s)) == Upper(s)
  {
  }

  lemma UpperCaseIsFixed(s: string)
    requires IsUpperCase(s)
    ensures Upper(s) == s
  {
  }

  /** A word of lower-case letters is its own lower-case form and has no whitespace at its ends. */
  lemma LowerLettersFixed(s: string)
    requires forall i | 0 <= i < |s| :: IsLowerLetter(s[i])
    ensures Lower(s) == s && NoEdgeSpace(s)
  {
  }

  /** Neither a leading nor a trailing whitespace character. */
  predicate NoEdgeSpace(s: string) {
    s == [] || (!IsSpace(s[0]) && !IsSpace(s[|s| - 1]))
  }

  function TrimStart(s: string): (r: string)
    ensures |r| <= |s| && r == s[|s| - |r|..]
    ensures r == [] || !IsSpace(r[0])
    ensures forall i | 0 <= i < |s| - |r| :: IsSpace(s[i])
  {
    if s != [] && IsSpace(s[0]) then TrimStart(s[1..]) else s
  }

  function TrimEnd(s: string): (r: string)
    ensures |r| <= |s| && r == s[..|r|]
    ensures r == [] || !IsSpace(r[|r| - 1])
    ensures forall i | |r| <= i < |s| :: IsSpace(s[i])
  {
    if s != [] && IsSpace(s[|s| - 1]) then TrimEnd(s[..|s| - 1]) else s
  }

  /** `str.strip()`: the middle of `s` left once whitespace is removed from both ends. */
  function Strip(s: string): (r: string)
    ensures NoEdgeSpace(r)
    ensures |r| <= |s|
  {
    TrimEnd(TrimStart(s))
  }

  /** Where the stripped text begins in the original. */
  function StripStart(s: string): nat {
    |s| - |TrimStart(s)|
  }

  /** The stripped text is a slice of the original. */
  lemma StripSlice(s: string)
    ensures StripStart(s) + |Strip(s)| <= |s|
    ensures Strip(s) == s[StripStart(s)..StripStart(s) + |Strip(s)|]
  {
    var t := TrimStart(s);
    var r := TrimEnd(t);
    assert r == t[..|r|];
    assert t == s[StripStart(s)..];
  }

  /** Strip removes nothing from a string that has no whitespace at its ends. */
  lemma StripClean(s: string)
    requires NoEdgeSpace(s)
    ensures Strip(s) == s
  {
  }

  lemma StripIdempotent(s: string)
    ensures Strip(Strip(s)) == Strip(s)
  {
    StripClean(Strip(s));
  }

  lemma {:induction false} TrimStartUpper(s: string)
    ensures TrimStart(Upper(s)) == Upper(TrimStart(s))
  {
    if s != [] && IsSpace(s[0]) {
      assert Upper(s)[1..] == Upper(s[1..]);
      TrimStartUpper(s[1..]);
    }
  }

  lemma {:induction false} TrimEndUpper(s: string)
    ensures TrimEnd(Upper(s)) == Upper(TrimEnd(s))
  {
    if s != [] && IsSpace(s[|s| - 1]) {
      assert Upper(s)[..|s| - 1] == Upper(s[..|s| - 1]);
      TrimEndUpper(s[..|s| - 1]);
    }
  }

  /** Case mapping does not move whitespace, so stripping and upper-casing commute. */
  lemma StripUpper(s: string)
    ensures Strip(Upper(s)) == Upper(Strip(s))
  {
    TrimStartUpper(s);
    TrimEndUpper(TrimStart(s));
  }

  /** Upper-casing keeps the length and the edges of a stripped text, and leaves no lower-case letter. */
  lemma UpperStripped(t: string)
    requires NoEdgeSpace(t)
    ensures |Upper(t)| == |t| && NoEdgeSpace(Upper(t)) && IsUpperCase(Upper(t))
  {
    UpperIsUpperCase(t);
    if t != [] {
      assert Upper(t)[0] == UpperChar(t[0]);
      assert Upper(t)[|t| - 1] == UpperChar(t[|t| - 1]);
    }
  }

  /** Number of leading characters of `s` that are not whitespace. */
  function WordLength(s: string): (n: nat)
    ensures n <= |s|
    ensures forall i | 0 <= i < n :: !IsSpace(s[i])
    ensures n < |s| ==> IsSpace(s[n])
  {
    if s == [] || IsSpace(s[0]) then 0 else 1 + WordLength(s[1..])
  }

  /** Number of leading whitespace characters of `s`. */
  function SpaceLength(s: string): (n: nat)
    ensures n <= |s|
    ensures forall i | 0 <= i < n :: IsSpace(s[i])
    ensures n < |s| ==> !IsSpace(s[n])
  {
    if s != [] && IsSpace(s[0]) then 1 + SpaceLength(s[1..]) else 0
  }

  /**
   * `re.split(r"\s+", s)`: the pieces of `s` between maximal runs of
   * whitespace. A leading or trailing run yields an empty piece, as in Python.
   */
  function SplitOnSpaces(s: string): (parts: seq<string>)
    ensures |parts| >= 1
    ensures forall k | 0 <= k < |parts| :: forall i | 0 <= i < |parts[k]| :: !IsSpace(parts[k][i])
    decreases |s|
  {
    var n := WordLength(s);
    if n == |s| then [s]
    else
      var rest := s[n..];
      [s[..n]] + SplitOnSpaces(rest[SpaceLength(rest)..])
  }

  /** `sep.join(parts)`. */
  function Join(parts: seq<string>, sep: string): string
    decreases |parts|
  {
    if parts == [] then ""
    else if |parts| == 1 then parts[0]
    else parts[0] + sep + Join(parts[1..], sep)
  }

  function DigitChar(d: nat): (c: char)
    requires d < 10
    ensures IsDigit(c)
  {
    ('0' as int + d) as char
  }

  function NatDecimal(n: nat): (r: string)
    ensures r != [] && forall i | 0 <= i < |r| :: IsDigit(r[i])
    decreases n
  {
    if n < 10 then [DigitChar(n)] else NatDecimal(n / 10) + [DigitChar(n % 10)]
  }

  /** `f"{n}"` for an integer `n`. */
  function Decimal(n: int): string {
    if n < 0 then "-" + NatDecimal(-n) else NatDecimal(n)
  }
}
