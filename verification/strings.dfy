/**
 * The few string primitives of JavaScript the core relies on: the whitespace class used by
 * `\s` and `String.prototype.trim`, `startsWith`, `includes`, `toLowerCase`, `Array.prototype.join`
 * and the decimal rendering of an integer in a template literal.
 */
module Strings {

  /** The double quote, single quote and backslash characters, by code point. */
  const DOUBLE_QUOTE: char := '\U{0022}'
  const SINGLE_QUOTE: char := '\U{0027}'
  const BACKSLASH: char := '\U{005C}'

  /** ECMAScript WhiteSpace and LineTerminator code points: exactly what `\s` matches and `trim` strips. */
  predicate IsWhitespace(c: char) {
    c == '\t' || c == '\n' || c == '\U{000B}' || c == '\U{000C}' || c == '\r' || c == ' ' ||
    c == '\U{00A0}' || c == '\U{1680}' || ('\U{2000}' <= c <= '\U{200A}') ||
    c == '\U{2028}' || c == '\U{2029}' || c == '\U{202F}' || c == '\U{205F}' ||
    c == '\U{3000}' || c == '\U{FEFF}'
  }

  /** `/\s/.test(s)` */
  predicate HasWhitespace(s: string) {
    exists i :: 0 <= i < |s| && IsWhitespace(s[i])
  }

  predicate AllWhitespace(s: string) {
    forall i :: 0 <= i < |s| ==> IsWhitespace(s[i])
  }

  /** A non-empty string that starts and ends with a character `trim` would keep. */
  predicate Trimmed(s: string) {
    s == [] || (!IsWhitespace(s[0]) && !IsWhitespace(s[|s| - 1]))
  }

  function TrimStart(s: string): (r: string)
    ensures |r| <= |s|
  {
    if s != [] && IsWhitespace(s[0]) then TrimStart(s[1..]) else s
  }

  /** `TrimStart` cuts a whitespace prefix and stops at the first character it keeps. */
  lemma {:induction false} TrimStartFacts(s: string)
    ensures TrimStart(s) == s[|s| - |TrimStart(s)|..]
    ensures TrimStart(s) == [] || !IsWhitespace(TrimStart(s)[0])
    ensures AllWhitespace(s[..|s| - |TrimStart(s)|])
  {
    if s != [] && IsWhitespace(s[0]) {
      TrimStartFacts(s[1..]);
      assert s[1..][|s| - 1 - |TrimStart(s)|..] == s[|s| - |TrimStart(s)|..];
      forall i | 0 <= i < |s| - |TrimStart(s)|
        ensures IsWhitespace(s[i])
      {
        if i > 0 {
          assert s[i] == s[1..][..|s| - 1 - |TrimStart(s)|][i - 1];
        }
      }
    }
  }

  function TrimEnd(s: string): (r: string)
    ensures |r| <= |s|
  {
    if s != [] && IsWhitespace(s[|s| - 1]) then TrimEnd(s[..|s| - 1]) else s
  }

  /** `TrimEnd` cuts a whitespace suffix and stops at the last character it keeps. */
  lemma {:induction false} TrimEndFacts(s: string)
    ensures TrimEnd(s) == s[..|TrimEnd(s)|]
    ensures TrimEnd(s) == [] || !IsWhitespace(TrimEnd(s)[|TrimEnd(s)| - 1])
    ensures AllWhitespace(s[|TrimEnd(s)|..])
  {
    if s != [] && IsWhitespace(s[|s| - 1]) {
      TrimEndFacts(s[..|s| - 1]);
      var n := |TrimEnd(s)|;
      assert s[..|s| - 1][..n] == s[..n];
      forall i | n <= i < |s|
        ensures IsWhitespace(s[i])
      {
        if i < |s| - 1 {
          assert s[i] == s[..|s| - 1][n..][i - n];
        }
      }
    }
  }

  /** `String.prototype.trim`: strip whitespace from both ends. */
  function Trim(s: string): (r: string)
    ensures |r| <= |s|
  {
    TrimEnd(TrimStart(s))
  }

  /**
   * What `trim` keeps is a slice of the input, everything cut off on either side is whitespace,
   * and the result is empty exactly for an all-whitespace input.
   */
  lemma TrimFacts(s: string)
    ensures exists a :: (0 <= a <= |s| - |Trim(s)| && Trim(s) == s[a..a + |Trim(s)|] &&
      AllWhitespace(s[..a]) && AllWhitespace(s[a + |Trim(s)|..]))
    ensures Trim(s) == [] <==> AllWhitespace(s)
    ensures Trimmed(Trim(s))
  {
    var l := TrimStart(s);
    TrimStartFacts(s);
    TrimEndFacts(l);
    CutBothEnds(s, l, TrimEnd(l), |s| - |l|);
  }

  /** The bookkeeping behind `Trim`, stated over plain slices. */
  lemma CutBothEnds(s: string, l: string, r: string, a: nat)
    requires a <= |s| && l == s[a..] && AllWhitespace(s[..a]) && (l == [] || !IsWhitespace(l[0]))
    requires |r| <= |l| && r == l[..|r|] && AllWhitespace(l[|r|..]) && (r == [] || !IsWhitespace(r[|r| - 1]))
    ensures Trimmed(r) && r == s[a..a + |r|] && AllWhitespace(s[a + |r|..])
    ensures r == [] <==> AllWhitespace(s)
  {
    assert s[a + |r|..] == l[|r|..];
    if r != [] {
      assert r[0] == l[0] == s[a];
    } else {
      assert l[|r|..] == l;
      assert s[..a] == s;
    }
  }

  lemma {:induction false} TrimOfTrimmed(s: string)
    requires Trimmed(s)
    ensures Trim(s) == s
  {
    if s != [] {
      assert TrimStart(s) == s;
      assert TrimEnd(s) == s;
    }
  }

  /** Trimming the start of a string with whitespace appended: the whitespace stays unless all goes. */
  lemma {:induction false} TrimStartSnoc(s: string, c: char)
    requires IsWhitespace(c)
    ensures TrimStart(s + [c]) == if AllWhitespace(s) then [] else TrimStart(s) + [c]
  {
    if s == [] {
      assert TrimStart([c]) == TrimStart([]);
    } else if IsWhitespace(s[0]) {
      assert (s + [c])[1..] == s[1..] + [c];
      TrimStartSnoc(s[1..], c);
      assert AllWhitespace(s) <==> AllWhitespace(s[1..]) by {
        assert forall i :: 1 <= i < |s| ==> s[i] == s[1..][i - 1];
      }
    } else {
      assert !AllWhitespace(s);
    }
  }

  /** A trailing space makes no difference to `trim`. */
  lemma TrimTrailingSpace(s: string)
    ensures Trim(s + " ") == Trim(s)
  {
    TrimStartSnoc(s, ' ');
    TrimFacts(s);
    if !AllWhitespace(s) {
      var t := TrimStart(s);
      assert (t + " ")[..|t|] == t;
    }
  }

  /**
   * `trim` keeps the end of a string that ends in a character it keeps, from any position
   * holding such a character.
   */
  lemma TrimKeepsEnd(s: string, k: nat)
    requires k < |s| && !IsWhitespace(s[k]) && !IsWhitespace(s[|s| - 1])
    ensures |Trim(s)| >= |s| - k && Trim(s)[|Trim(s)| - (|s| - k)..] == s[k..]
  {
    TrimFacts(s);
    var t := Trim(s);
    var a :| 0 <= a <= |s| - |t| && t == s[a..a + |t|] && AllWhitespace(s[..a]) && AllWhitespace(s[a + |t|..]);
    KeptAtEnd(s, a + |t|);
    KeptAt(s, k, a);
    assert t == s[a..];
    assert t[|t| - (|s| - k)..] == s[a..][k - a..];
  }

  /** A whitespace suffix of a string that ends in a kept character is empty. */
  lemma KeptAtEnd(s: string, j: nat)
    requires j <= |s| && |s| > 0 && !IsWhitespace(s[|s| - 1])
    ensures AllWhitespace(s[j..]) ==> j == |s|
  {
    if j < |s| {
      assert s[j..][|s| - 1 - j] == s[|s| - 1];
    }
  }

  /** A whitespace prefix stops before any kept character. */
  lemma KeptAt(s: string, k: nat, a: nat)
    requires k < |s| && a <= |s| && !IsWhitespace(s[k])
    ensures AllWhitespace(s[..a]) ==> a <= k
  {
    if a > k {
      assert s[..a][k] == s[k];
    }
  }

  predicate StartsWith(s: string, prefix: string) {
    |prefix| <= |s| && s[..|prefix|] == prefix
  }

  /** `s.includes(sub)` */
  predicate Contains(s: string, sub: string) {
    exists i :: 0 <= i <= |s| - |sub| && OccursAt(s, sub, i)
  }

  predicate OccursAt(s: string, sub: string, i: nat)
    requires i + |sub| <= |s|
  {
    s[i..i + |sub|] == sub
  }

  /** `toLowerCase`, restricted to the ASCII letters. */
  function LowerChar(c: char): char {
    if 'A' <= c <= 'Z' then (c as int + 32) as char else c
  }

  function Lower(s: string): (r: string)
    ensures |r| == |s|
    ensures forall i :: 0 <= i < |s| ==> r[i] == LowerChar(s[i])
  {
    seq(|s|, i requires 0 <= i < |s| => LowerChar(s[i]))
  }

  /** `parts.join(sep)` */
  function Join(parts: seq<string>, sep: string): string {
    if parts == [] then ""
    else if |parts| == 1 then parts[0]
    else parts[0] + sep + Join(parts[1..], sep)
  }

  function DigitChar(d: nat): char
    requires d < 10
  {
    "0123456789"[d]
  }

  /** Decimal rendering of a non-negative integer, as a template literal prints it. */
  function NatToString(n: nat): (r: string)
    ensures r != []
    decreases n
  {
    if n < 10 then [DigitChar(n)] else NatToString(n / 10) + [DigitChar(n % 10)]
  }

  function IntToString(n: int): (r: string)
    ensures r != []
  {
    if n < 0 then "-" + NatToString(-n) else NatToString(n)
  }
}
