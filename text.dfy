/** The string built-ins the core relies on: str.isspace, str.strip,
    str.endswith and the decimal rendering of an int in an f-string. */
module Text {

  /** The characters for which Python's str.isspace() is true. */
  const Whitespace: set<char> := {
    '\t', '\n', '\U{B}', '\U{C}', '\r',             // \t \n \v \f \r
    '\U{1C}', '\U{1D}', '\U{1E}', '\U{1F}',         // file, group, record, unit separators
    ' ', '\U{85}', '\U{A0}', '\U{1680}',
    '\U{2000}', '\U{2001}', '\U{2002}', '\U{2003}', '\U{2004}', '\U{2005}',
    '\U{2006}', '\U{2007}', '\U{2008}', '\U{2009}', '\U{200A}',
    '\U{2028}', '\U{2029}', '\U{202F}', '\U{205F}', '\U{3000}'
  }

  predicate IsSpace(c: char) {
    c in Whitespace
  }

  predicate AllSpace(s: string) {
    forall k :: 0 <= k < |s| ==> IsSpace(s[k])
  }

  /** Neither end of s is a whitespace character. */
  predicate Trimmed(s: string) {
    s == [] || (!IsSpace(s[0]) && !IsSpace(s[|s| - 1]))
  }

  /** How many whitespace characters s starts with. */
  function LeadingSpaces(s: string): (n: nat)
    ensures n <= |s|
    ensures n < |s| ==> !IsSpace(s[n])
  {
    if s != [] && IsSpace(s[0]) then 1 + LeadingSpaces(s[1..]) else 0
  }

  /** How many whitespace characters s ends with. */
  function TrailingSpaces(s: string): (n: nat)
    ensures n <= |s|
    ensures n < |s| ==> !IsSpace(s[|s| - 1 - n])
  {
    if s != [] && IsSpace(s[|s| - 1]) then 1 + TrailingSpaces(s[..|s| - 1]) else 0
  }

  lemma {:induction false} LeadingSpacesAreSpace(s: string)
    ensures AllSpace(s[..LeadingSpaces(s)])
  {
    if s != [] && IsSpace(s[0]) {
      LeadingSpacesAreSpace(s[1..]);
      var n := LeadingSpaces(s);
      assert s[..n] == [s[0]] + s[1..][..n - 1];
    }
  }

  lemma {:induction false} TrailingSpacesAreSpace(s: string)
    ensures AllSpace(s[|s| - TrailingSpaces(s)..])
  {
    if s != [] && IsSpace(s[|s| - 1]) {
      var t := s[..|s| - 1];
      TrailingSpacesAreSpace(t);
      var n := TrailingSpaces(s);
      assert n == 1 + TrailingSpaces(t);
      var u, v := s[|s| - n..], t[|t| - (n - 1)..];
      assert |u| == n && |v| == n - 1;
      forall k | 0 <= k < n
        ensures IsSpace(u[k])
      {
        if k < n - 1 {
          assert u[k] == s[|s| - n + k] == t[|t| - (n - 1) + k] == v[k];
        } else {
          assert u[k] == s[|s| - 1];
        }
      }
    }
  }

  /** str.strip(): whitespace dropped at both ends. */
  function Strip(s: string): (r: string)
    ensures |r| <= |s| && Trimmed(r)
  {
    var t := s[LeadingSpaces(s)..];
    t[..|t| - TrailingSpaces(t)]
  }

  /** Strip(s) is a slice of s with only whitespace before and after it. */
  lemma StripSlice(s: string) returns (i: nat)
    ensures i + |Strip(s)| <= |s| && Strip(s) == s[i..i + |Strip(s)|]
    ensures AllSpace(s[..i]) && AllSpace(s[i + |Strip(s)|..])
  {
    i := LeadingSpaces(s);
    var t := s[i..];
    var n := TrailingSpaces(t);
    var j := i + (|t| - n);
    assert Strip(s) == s[i..j] by {
      assert Strip(s) == t[..|t| - n];
      assert t[..|t| - n] == s[i..j];
    }
    assert AllSpace(s[..i]) by {
      LeadingSpacesAreSpace(s);
    }
    assert AllSpace(s[j..]) by {
      TrailingSpacesAreSpace(t);
      assert s[j..] == t[|t| - n..];
    }
  }

  /** A non-whitespace character of s lies inside any slice that leaves only
      whitespace around it. */
  lemma NonSpaceInside(s: string, i: int, j: int, k: int)
    requires 0 <= i <= j <= |s| && AllSpace(s[..i]) && AllSpace(s[j..])
    requires 0 <= k < |s| && !IsSpace(s[k])
    ensures i <= k < j
  {
    assert forall m :: 0 <= m < i ==> s[..i][m] == s[m];
    assert forall m :: j <= m < |s| ==> s[j..][m - j] == s[m];
  }

  /** Strip is the only slice of s that is trimmed and leaves only whitespace
      around it. */
  lemma StripUnique(s: string, i: int, j: int)
    requires 0 <= i <= j <= |s|
    requires AllSpace(s[..i]) && AllSpace(s[j..]) && Trimmed(s[i..j])
    ensures Strip(s) == s[i..j]
  {
    var r := Strip(s);
    var i' := StripSlice(s);
    var j' := i' + |r|;
    if i < j {
      assert i == i' && j == j' by {
        assert !IsSpace(s[i]) && !IsSpace(s[j - 1]);
        NonSpaceInside(s, i', j', i);
        NonSpaceInside(s, i', j', j - 1);
        assert !IsSpace(s[i']) && !IsSpace(s[j' - 1]);
        NonSpaceInside(s, i, j, i');
        NonSpaceInside(s, i, j, j' - 1);
      }
    } else {
      assert r == [] by {
        if r != [] {
          assert !IsSpace(s[i']);
          NonSpaceInside(s, i, j, i');
        }
      }
    }
  }

  /** Stripping twice changes nothing more. */
  lemma StripIdempotent(s: string)
    ensures Strip(Strip(s)) == Strip(s)
  {
    var r := Strip(s);
    assert r[0..|r|] == r && r[..0] == [] && r[|r|..] == [];
    StripUnique(r, 0, |r|);
  }

  /** A string made only of whitespace strips to the empty string. */
  lemma StripAllSpace(s: string)
    requires AllSpace(s)
    ensures Strip(s) == ""
  {
    StripUnique(s, 0, 0);
  }

  /** str.endswith(suffix) */
  predicate EndsWith(s: string, suffix: string) {
    |suffix| <= |s| && s[|s| - |suffix|..] == suffix
  }

  /** endswith holds exactly of the strings that are something followed by suffix. */
  lemma EndsWithIffConcat(s: string, suffix: string)
    ensures EndsWith(s, suffix) <==> exists p :: s == p + suffix
  {
    if EndsWith(s, suffix) {
      var p := s[..|s| - |suffix|];
      assert s == p + suffix;
    }
    if exists p :: s == p + suffix {
      var p :| s == p + suffix;
      assert s[|s| - |suffix|..] == suffix;
    }
  }

  predicate IsDigit(c: char) { '0' <= c <= '9' }

  predicate AllDigits(s: string) {
    forall k :: 0 <= k < |s| ==> IsDigit(s[k])
  }

  function DigitChar(d: nat): (c: char)
    requires d < 10
    ensures IsDigit(c) && (c as int) - ('0' as int) == d
  {
    (('0' as int) + d) as char
  }

  /** The decimal digits of n, with no leading zero (str(n) for n >= 0). */
  function NatToString(n: nat): (s: string)
    ensures |s| >= 1 && AllDigits(s)
    ensures s[0] == '0' ==> n == 0
  {
    if n < 10 then [DigitChar(n)] else NatToString(n / 10) + [DigitChar(n % 10)]
  }

  /** str(i) for a Python int. */
  function IntToString(i: int): (s: string)
    ensures |s| >= 1
    ensures i < 0 <==> s[0] == '-'
  {
    if i < 0 then "-" + NatToString(-i) else NatToString(i)
  }

  /** The value of a string of decimal digits. */
  function DigitsValue(s: string): nat
    requires AllDigits(s)
  {
    if s == [] then 0
    else DigitsValue(s[..|s| - 1]) * 10 + ((s[|s| - 1] as int) - ('0' as int))
  }

  /** The value of an optionally signed decimal numeral (int(s)). */
  function DecimalValue(s: string): int
    requires |s| >= 1
    requires if s[0] == '-' then AllDigits(s[1..]) else AllDigits(s)
  {
    if s[0] == '-' then -(DigitsValue(s[1..]) as int) else DigitsValue(s)
  }

  lemma {:induction false} NatToStringRoundTrip(n: nat)
    ensures DigitsValue(NatToString(n)) == n
  {
    if n >= 10 {
      NatToStringRoundTrip(n / 10);
      var s := NatToString(n);
      assert s[..|s| - 1] == NatToString(n / 10);
    }
  }

  /** The rendering of an int can be read back: int(str(i)) == i. */
  lemma IntToStringRoundTrip(i: int)
    ensures var s := IntToString(i);
            (if s[0] == '-' then AllDigits(s[1..]) else AllDigits(s)) && DecimalValue(s) == i
  {
    if i < 0 {
      NatToStringRoundTrip(-i);
      assert IntToString(i)[1..] == NatToString(-i);
    } else {
      NatToStringRoundTrip(i);
    }
  }

  /** Distinct ints render differently. */
  lemma IntToStringInjective(i: int, j: int)
    requires IntToString(i) == IntToString(j)
    ensures i == j
  {
    IntToStringRoundTrip(i);
    IntToStringRoundTrip(j);
  }
}
