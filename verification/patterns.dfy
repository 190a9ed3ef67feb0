/**
 * The four regular expressions of the key-discovery code, each written out as an explicit
 * scanner with JavaScript's matching semantics (leftmost match, greedy quantifiers with
 * backtracking, ASCII case folding under the `i` flag), and the `g`-flag `exec` loop that
 * resumes each search at `lastIndex`.
 */
module Patterns {
  import opened Wrappers
  import opened Strings

  /** One successful `regex.exec`: the text the caller reads (`match[1]`, or `match[0]` for the base64 scan) and `lastIndex` afterwards. */
  datatype Match = Match(value: string, end: nat)

  datatype Pattern =
    | ScriptTag    // /<script[^>]+src=["']([^"']+)["'][^>]*>/gi, group 1
    | HeaderKey    // /x-apikey\s*['"]?\s*[:=]\s*['"]([^'"]{10,})['"]/gi, group 1
    | ApiKeyField  // /apiKey\s*[:=]\s*['"]([^'"]{10,})['"]/gi, group 1
    | Base64Run    // /[A-Za-z0-9+/]{40,80}={0,2}/g, the whole match

  const MIN_QUOTED_KEY: nat := 10
  const MIN_BASE64_RUN: nat := 40
  const MAX_BASE64_RUN: nat := 80
  const MAX_PADDING: nat := 2

  /** The literal prefixes of the header-key and `apiKey` patterns, lower-cased. */
  const HEADER_KEY_LITERAL: string := "x-apikey"
  const API_KEY_LITERAL: string := "apikey"

  predicate IsQuote(c: char) {
    c == DOUBLE_QUOTE || c == SINGLE_QUOTE
  }

  predicate NoQuotes(v: string) {
    forall k :: 0 <= k < |v| ==> !IsQuote(v[k])
  }

  predicate IsAssign(c: char) {
    c == ':' || c == '='
  }

  /** The class `[A-Za-z0-9+/]`. */
  predicate IsBase64Char(c: char) {
    ('A' <= c <= 'Z') || ('a' <= c <= 'z') || ('0' <= c <= '9') || c == '+' || c == '/'
  }

  predicate AllBase64(v: string) {
    forall k :: 0 <= k < |v| ==> IsBase64Char(v[k])
  }

  predicate IsPadding(v: string) {
    |v| <= MAX_PADDING && forall k :: 0 <= k < |v| ==> v[k] == '='
  }

  /** A character matched against a lower-case literal character under the `i` flag (no non-ASCII character folds onto ASCII). */
  predicate FoldsTo(c: char, lit: char) {
    c == lit || ('a' <= lit <= 'z' && c as int == lit as int - 32)
  }

  /** The lower-case literal `lit` occurs at `i`, letters compared case-insensitively. */
  predicate LiteralAt(s: string, i: nat, lit: string) {
    i + |lit| <= |s| && forall k :: 0 <= k < |lit| ==> FoldsTo(s[i + k], lit[k])
  }

  /** `v` is the text of `s` from position `at` on. */
  predicate CapturedAt(s: string, v: string, at: nat) {
    at + |v| <= |s| && s[at..at + |v|] == v
  }

  /** `\s*` from `i`: the end of the whitespace run. */
  function SkipWhitespace(s: string, i: nat): (j: nat)
    requires i <= |s|
    ensures i <= j <= |s|
    ensures (forall k :: i <= k < j ==> IsWhitespace(s[k])) && (j == |s| || !IsWhitespace(s[j]))
    decreases |s| - i
  {
    if i < |s| && IsWhitespace(s[i]) then SkipWhitespace(s, i + 1) else i
  }

  /** `[^'"]*` from `i`: the end of the run of non-quote characters. */
  function NonQuoteEnd(s: string, i: nat): (j: nat)
    requires i <= |s|
    ensures i <= j <= |s|
    ensures (forall k :: i <= k < j ==> !IsQuote(s[k])) && (j == |s| || IsQuote(s[j]))
    decreases |s| - i
  {
    if i < |s| && !IsQuote(s[i]) then NonQuoteEnd(s, i + 1) else i
  }

  /** The first position at or after `i` holding `c`. */
  function IndexOf(s: string, c: char, i: nat): (r: Option<nat>)
    requires i <= |s|
    ensures r.Some? ==> i <= r.value < |s| && s[r.value] == c
    ensures forall k :: i <= k < (if r.Some? then r.value else |s|) ==> s[k] != c
    decreases |s| - i
  {
    if i == |s| then None else if s[i] == c then Some(i) else IndexOf(s, c, i + 1)
  }

  /**
   * `['"]([^'"]{min,})['"]` at `i`: a quote, the longest run of non-quote characters (it must
   * hold at least `min` of them), a quote. Backtracking cannot help: a shorter run is followed
   * by a non-quote.
   */
  function QuotedAt(s: string, i: nat, min: nat): (r: Option<Match>)
    requires i <= |s|
    ensures r.Some? ==> i + 1 < r.value.end <= |s| && IsQuote(s[i]) && IsQuote(s[r.value.end - 1])
    ensures r.Some? ==> r.value.end == i + 2 + |r.value.value| && CapturedAt(s, r.value.value, i + 1)
    ensures r.Some? ==> |r.value.value| >= min && NoQuotes(r.value.value)
  {
    if i < |s| && IsQuote(s[i]) then
      var e := NonQuoteEnd(s, i + 1);
      if e - (i + 1) >= min && e < |s| then Some(Match(s[i + 1..e], e + 1)) else None
    else None
  }

  /** `src=["']([^"']+)["'][^>]*>` at `q`. */
  function SrcAttrAt(s: string, q: nat): (r: Option<Match>)
    ensures r.Some? ==> q < r.value.end <= |s| && |r.value.value| >= 1 && NoQuotes(r.value.value)
  {
    if LiteralAt(s, q, "src=") then
      match QuotedAt(s, q + 4, 1)
      case None => None
      case Some(m) =>
        match IndexOf(s, '>', m.end)
        case None => None
        case Some(g) => Some(Match(m.value, g + 1))
    else None
  }

  /** Backtracking of the greedy `[^>]+`: try `src=` at `q`, `q - 1`, ..., `lo`, rightmost first. */
  function SrcRightmost(s: string, lo: nat, q: nat): (r: Option<Match>)
    ensures r.Some? ==> lo < r.value.end <= |s| && |r.value.value| >= 1 && NoQuotes(r.value.value)
    decreases q
  {
    if q < lo then None
    else (match SrcAttrAt(s, q)
      case Some(m) => Some(m)
      case None => if q == lo then None else SrcRightmost(s, lo, q - 1))
  }

  /**
   * `<script[^>]+src=["']([^"']+)["'][^>]*>` at `p`. `[^>]+` spans from after `<script` up to,
   * at most, the first `>`; of the `src=` positions in that span the rightmost one that
   * completes the match wins. The captured source may itself contain `>`.
   */
  function ScriptTagAt(s: string, p: nat): (r: Option<Match>)
    ensures r.Some? ==> p < r.value.end <= |s| && |r.value.value| >= 1 && NoQuotes(r.value.value)
  {
    if LiteralAt(s, p, "<script") then
      var g := match IndexOf(s, '>', p + 7) case Some(g) => g case None => |s|;
      SrcRightmost(s, p + 8, g)
    else None
  }

  /** `\s*[:=]\s*['"]([^'"]{10,})['"]` from `i`: the assignment and quoted value both key patterns end with. */
  function AssignedValueAt(s: string, i: nat): (r: Option<Match>)
    requires i <= |s|
    ensures r.Some? ==> i < r.value.end <= |s| && |r.value.value| >= MIN_QUOTED_KEY && NoQuotes(r.value.value)
    ensures r.Some? ==> |r.value.value| + 1 < r.value.end && IsQuote(s[r.value.end - 1])
    ensures r.Some? ==> CapturedAt(s, r.value.value, r.value.end - 1 - |r.value.value|)
  {
    var a := SkipWhitespace(s, i);
    if a < |s| && IsAssign(s[a]) then QuotedAt(s, SkipWhitespace(s, a + 1), MIN_QUOTED_KEY) else None
  }

  /** `['"]?` at `b`: the position after the quote if one stands there, `b` otherwise. */
  function PastOptionalQuote(s: string, b: nat): (i: nat)
    requires b <= |s|
    ensures b <= i <= |s|
  {
    if b < |s| && IsQuote(s[b]) then b + 1 else b
  }

  /** `x-apikey\s*['"]?\s*[:=]\s*['"]([^'"]{10,})['"]` at `p`; no backtracking into the `\s*` or `['"]?` can succeed where this fails. */
  function HeaderKeyAt(s: string, p: nat): (r: Option<Match>)
    ensures r.Some? ==> LiteralAt(s, p, HEADER_KEY_LITERAL)
    ensures r.Some? ==> p < r.value.end <= |s| && |r.value.value| >= MIN_QUOTED_KEY && NoQuotes(r.value.value)
    ensures r.Some? ==> |r.value.value| + 1 < r.value.end && IsQuote(s[r.value.end - 1])
    ensures r.Some? ==> CapturedAt(s, r.value.value, r.value.end - 1 - |r.value.value|)
  {
    if LiteralAt(s, p, HEADER_KEY_LITERAL) then
      AssignedValueAt(s, PastOptionalQuote(s, SkipWhitespace(s, p + |HEADER_KEY_LITERAL|)))
    else None
  }

  /** `apiKey\s*[:=]\s*['"]([^'"]{10,})['"]` at `p`, case-insensitively. */
  function ApiKeyAt(s: string, p: nat): (r: Option<Match>)
    ensures r.Some? ==> LiteralAt(s, p, API_KEY_LITERAL)
    ensures r.Some? ==> p < r.value.end <= |s| && |r.value.value| >= MIN_QUOTED_KEY && NoQuotes(r.value.value)
    ensures r.Some? ==> |r.value.value| + 1 < r.value.end && IsQuote(s[r.value.end - 1])
    ensures r.Some? ==> CapturedAt(s, r.value.value, r.value.end - 1 - |r.value.value|)
  {
    if LiteralAt(s, p, API_KEY_LITERAL) then AssignedValueAt(s, p + |API_KEY_LITERAL|) else None
  }

  /** The end of the run of base64 characters from `i`, stopping at `cap`. */
  function Base64RunEnd(s: string, i: nat, cap: nat): (j: nat)
    requires i <= cap <= |s|
    ensures i <= j <= cap
    ensures (forall k :: i <= k < j ==> IsBase64Char(s[k])) && (j == cap || !IsBase64Char(s[j]))
    decreases cap - i
  {
    if i < cap && IsBase64Char(s[i]) then Base64RunEnd(s, i + 1, cap) else i
  }

  /** The end of the run of `=` from `i`, stopping at `cap`. */
  function PaddingEnd(s: string, i: nat, cap: nat): (j: nat)
    requires i <= cap <= |s|
    ensures i <= j <= cap
    ensures (forall k :: i <= k < j ==> s[k] == '=') && (j == cap || s[j] != '=')
    decreases cap - i
  {
    if i < cap && s[i] == '=' then PaddingEnd(s, i + 1, cap) else i
  }

  function Min(a: nat, b: nat): nat {
    if a <= b then a else b
  }

  /** A base64 match: between 40 and 80 alphabet characters, then at most two `=`. */
  predicate Base64Shaped(v: string) {
    exists n :: MIN_BASE64_RUN <= n <= MAX_BASE64_RUN && n <= |v| && AllBase64(v[..n]) && IsPadding(v[n..])
  }

  /** `[A-Za-z0-9+/]{40,80}={0,2}` at `p`: greedy, so at most 80 alphabet characters and then as many `=` as there are, up to two. */
  function Base64At(s: string, p: nat): (r: Option<Match>)
    requires p <= |s|
    ensures r.Some? ==> p < r.value.end == p + |r.value.value| <= |s| && CapturedAt(s, r.value.value, p)
    ensures r.Some? ==> Base64Shaped(r.value.value)
  {
    var e := Base64RunEnd(s, p, Min(p + MAX_BASE64_RUN, |s|));
    if e - p < MIN_BASE64_RUN then None
    else
      var f := PaddingEnd(s, e, Min(e + MAX_PADDING, |s|));
      var v := s[p..f];
      assert v[..e - p] == s[p..e] && v[e - p..] == s[e..f];
      Some(Match(v, f))
  }

  /** What the source reads from a match of `pat`: a quote-free capture, or a base64-shaped run. */
  predicate WellShaped(pat: Pattern, v: string) {
    match pat
    case ScriptTag => |v| >= 1 && NoQuotes(v)
    case HeaderKey => |v| >= MIN_QUOTED_KEY && NoQuotes(v)
    case ApiKeyField => |v| >= MIN_QUOTED_KEY && NoQuotes(v)
    case Base64Run => Base64Shaped(v)
  }

  /** The match of `pat` that starts exactly at `p`, if any. */
  function MatchAt(pat: Pattern, s: string, p: nat): (r: Option<Match>)
    requires p <= |s|
    ensures r.Some? ==> p < r.value.end <= |s| && WellShaped(pat, r.value.value)
  {
    match pat
    case ScriptTag => ScriptTagAt(s, p)
    case HeaderKey => HeaderKeyAt(s, p)
    case ApiKeyField => ApiKeyAt(s, p)
    case Base64Run => Base64At(s, p)
  }

  /** The leftmost position from `from` to `last` at which `at` reports a match, and that match. */
  function Leftmost(at: nat -> Option<Match>, from: nat, last: nat): Option<Match>
    requires from <= last
    decreases last - from
  {
    match at(from)
    case Some(m) => Some(m)
    case None => if from == last then None else Leftmost(at, from + 1, last)
  }

  lemma {:induction false} LeftmostNone(at: nat -> Option<Match>, from: nat, last: nat)
    requires from <= last
    ensures Leftmost(at, from, last).None? <==> forall p :: from <= p <= last ==> at(p).None?
    decreases last - from
  {
    if at(from).None? && from < last {
      LeftmostNone(at, from + 1, last);
    }
  }

  lemma {:induction false} LeftmostFirst(at: nat -> Option<Match>, from: nat, last: nat)
    requires from <= last && Leftmost(at, from, last).Some?
    ensures exists p :: (from <= p <= last && at(p) == Leftmost(at, from, last) &&
      forall q :: from <= q < p ==> at(q).None?)
    decreases last - from
  {
    if at(from).None? {
      LeftmostFirst(at, from + 1, last);
      var p :| from + 1 <= p <= last && at(p) == Leftmost(at, from + 1, last) &&
        forall q :: from + 1 <= q < p ==> at(q).None?;
      assert from <= p;
    } else {
      assert at(from) == Leftmost(at, from, last);
    }
  }

  /** `MatchAt` for one pattern and text, as a function of the position. */
  function Matcher(pat: Pattern, s: string): nat -> Option<Match> {
    (p: nat) => if p <= |s| then MatchAt(pat, s, p) else None
  }

  /** `regex.exec(s)` with `lastIndex == from`: the leftmost match starting at or after `from`. */
  function Exec(pat: Pattern, s: string, from: nat): (r: Option<Match>)
    requires from <= |s|
    ensures r.Some? ==> from < r.value.end <= |s| && WellShaped(pat, r.value.value)
  {
    var r := Leftmost(Matcher(pat, s), from, |s|);
    if r.Some? then
      LeftmostFirst(Matcher(pat, s), from, |s|);
      var p :| from <= p <= |s| && Matcher(pat, s)(p) == r;
      assert MatchAt(pat, s, p) == r;
      r
    else r
  }

  /** `exec` finds nothing exactly when the pattern matches at no position from `from` on. */
  lemma ExecNone(pat: Pattern, s: string, from: nat)
    requires from <= |s|
    ensures Exec(pat, s, from).None? <==> forall p :: from <= p <= |s| ==> Matcher(pat, s)(p).None?
  {
    LeftmostNone(Matcher(pat, s), from, |s|);
  }

  /** What `exec` finds is the match at the leftmost position from `from` on where the pattern matches. */
  lemma ExecLeftmost(pat: Pattern, s: string, from: nat)
    requires from <= |s| && Exec(pat, s, from).Some?
    ensures exists p :: (from <= p <= |s| && Matcher(pat, s)(p) == Exec(pat, s, from) &&
      forall q :: from <= q < p ==> Matcher(pat, s)(q).None?)
  {
    LeftmostFirst(Matcher(pat, s), from, |s|);
  }

  /** The values read by `while ((m = regex.exec(s))) { ... }` when `lastIndex` starts at `from`. */
  function AllMatches(pat: Pattern, s: string, from: nat): (vs: seq<string>)
    requires from <= |s|
    ensures forall k :: 0 <= k < |vs| ==> WellShaped(pat, vs[k])
    decreases |s| - from
  {
    (match Exec(pat, s, from)
     case None => []
     case Some(m) => [m.value] + AllMatches(pat, s, m.end))
  }

  /** One turn of the `exec` loop: the next match's value, then the matches after its end. */
  lemma AllMatchesStep(pat: Pattern, s: string, from: nat)
    requires from <= |s| && Exec(pat, s, from).Some?
    ensures AllMatches(pat, s, from) == [Exec(pat, s, from).value.value] + AllMatches(pat, s, Exec(pat, s, from).value.end)
  {
  }

  lemma AllMatchesDone(pat: Pattern, s: string, from: nat)
    requires from <= |s| && Exec(pat, s, from).None?
    ensures AllMatches(pat, s, from) == []
  {
  }

  /**
   * The `exec` loop reports every match it reaches: a match at `p` is among the values read
   * from `from` on when no match starting in between runs past `p`.
   */
  lemma {:induction false} AllMatchesReaches(pat: Pattern, s: string, from: nat, p: nat)
    requires from <= p <= |s| && Matcher(pat, s)(p).Some?
    requires forall q :: from <= q < p && Matcher(pat, s)(q).Some? ==> Matcher(pat, s)(q).value.end <= p
    ensures Matcher(pat, s)(p).value.value in AllMatches(pat, s, from)
    decreases p - from
  {
    ExecNone(pat, s, from);
    ExecLeftmost(pat, s, from);
    var m := Exec(pat, s, from).value;
    var first :| from <= first <= |s| && Matcher(pat, s)(first) == Some(m) &&
      forall q :: from <= q < first ==> Matcher(pat, s)(q).None?;
    AllMatchesStep(pat, s, from);
    assert AllMatches(pat, s, from) == [m.value] + AllMatches(pat, s, m.end);
    if first < p {
      assert m.end <= p;
      AllMatchesReaches(pat, s, m.end, p);
    } else {
      assert first == p;
    }
  }

  /**
   * A stand-alone run of 40 to 80 alphabet characters and the `=` after it, up to two of
   * them: the greedy base64 match at its start is the whole run.
   */
  predicate PaddedRunAt(s: string, p: nat, n: nat, m: nat) {
    p + n + m <= |s| && MIN_BASE64_RUN <= n <= MAX_BASE64_RUN && m <= MAX_PADDING &&
    (forall k :: p <= k < p + n ==> IsBase64Char(s[k])) &&
    (forall k :: p + n <= k < p + n + m ==> s[k] == '=') &&
    (n == MAX_BASE64_RUN || p + n == |s| || !IsBase64Char(s[p + n])) &&
    (m == MAX_PADDING || p + n + m == |s| || s[p + n + m] != '=')
  }

  lemma Base64AtRun(s: string, p: nat, n: nat, m: nat)
    requires PaddedRunAt(s, p, n, m)
    ensures Base64At(s, p) == Some(Match(s[p..p + n + m], p + n + m))
  {
    var e := Base64RunEnd(s, p, Min(p + MAX_BASE64_RUN, |s|));
    assert e == p + n;
    var f := PaddingEnd(s, e, Min(e + MAX_PADDING, |s|));
    assert f == p + n + m;
  }

  /** A base64 match that starts before a run preceded by a non-alphabet character ends at the run's start at the latest. */
  lemma Base64StopsBefore(s: string, p: nat, q: nat)
    requires q < p < |s| && !IsBase64Char(s[p - 1]) && IsBase64Char(s[p])
    ensures Base64At(s, q).Some? ==> Base64At(s, q).value.end <= p
  {
    var e := Base64RunEnd(s, q, Min(q + MAX_BASE64_RUN, |s|));
    assert e < p;
    var f := PaddingEnd(s, e, Min(e + MAX_PADDING, |s|));
    assert f <= p;
  }

  /**
   * The base64 scan reports a stand-alone padded run whole: one that starts the text or
   * follows a character outside the alphabet.
   */
  lemma PaddedRunFound(s: string, p: nat, n: nat, m: nat)
    requires PaddedRunAt(s, p, n, m)
    requires p == 0 || !IsBase64Char(s[p - 1])
    ensures s[p..p + n + m] in AllMatches(Base64Run, s, 0)
  {
    Base64AtRun(s, p, n, m);
    assert Matcher(Base64Run, s)(p) == Base64At(s, p);
    forall q | 0 <= q < p && Matcher(Base64Run, s)(q).Some?
      ensures Matcher(Base64Run, s)(q).value.end <= p
    {
      assert Matcher(Base64Run, s)(q) == Base64At(s, q);
      Base64StopsBefore(s, p, q);
    }
    AllMatchesReaches(Base64Run, s, 0, p);
  }

  // What the scanners find: each pattern's match at a position where its text is laid out.

  /** `SkipWhitespace` stops at the first non-whitespace character. */
  lemma {:induction false} SkipWhitespaceStops(s: string, i: nat, j: nat)
    requires i <= j <= |s|
    requires forall k :: i <= k < j ==> IsWhitespace(s[k])
    requires j == |s| || !IsWhitespace(s[j])
    ensures SkipWhitespace(s, i) == j
    decreases j - i
  {
    if i < j {
      SkipWhitespaceStops(s, i + 1, j);
    }
  }

  /** Quotes, `:` and `=` are not whitespace, so `\s*` stops before them. */
  lemma DelimiterNotWhitespace(c: char)
    requires IsQuote(c) || IsAssign(c)
    ensures !IsWhitespace(c)
  {
  }

  /** `NonQuoteEnd` stops at the first quote. */
  lemma {:induction false} NonQuoteEndStops(s: string, i: nat, j: nat)
    requires i <= j <= |s|
    requires forall k :: i <= k < j ==> !IsQuote(s[k])
    requires j == |s| || IsQuote(s[j])
    ensures NonQuoteEnd(s, i) == j
    decreases j - i
  {
    if i < j {
      NonQuoteEndStops(s, i + 1, j);
    }
  }

  /** `IndexOf` finds the first occurrence. */
  lemma {:induction false} IndexOfFinds(s: string, c: char, i: nat, j: nat)
    requires i <= j < |s| && s[j] == c
    requires forall k :: i <= k < j ==> s[k] != c
    ensures IndexOf(s, c, i) == Some(j)
    decreases j - i
  {
    if i < j {
      IndexOfFinds(s, c, i + 1, j);
    }
  }

  /** A quote at `i`, at least `min` non-quote characters, and a quote at `e`. */
  predicate QuotedRun(s: string, i: nat, e: nat, min: nat) {
    i < e < |s| && IsQuote(s[i]) && IsQuote(s[e]) && e - i - 1 >= min &&
    forall k :: i < k < e ==> !IsQuote(s[k])
  }

  /** `QuotedAt` captures the text between the two quotes of a quoted run. */
  lemma QuotedAtFinds(s: string, i: nat, e: nat, min: nat)
    requires QuotedRun(s, i, e, min)
    ensures QuotedAt(s, i, min) == Some(Match(s[i + 1..e], e + 1))
  {
    NonQuoteEndStops(s, i + 1, e);
  }

  /**
   * `\s*[:=]\s*['"]…['"]` laid out from `i`: whitespace, the `:` or `=` at `a`, whitespace, and
   * a quoted run of at least 10 characters from `q` to `e`.
   */
  predicate AssignedValueLayout(s: string, i: nat, a: nat, q: nat, e: nat) {
    i <= a < q && QuotedRun(s, q, e, MIN_QUOTED_KEY) &&
    (forall k :: i <= k < a ==> IsWhitespace(s[k])) && IsAssign(s[a]) &&
    (forall k :: a < k < q ==> IsWhitespace(s[k]))
  }

  /** The shared tail of the key patterns matches such a layout and captures the text between the quotes. */
  lemma AssignedValueAtFinds(s: string, i: nat, a: nat, q: nat, e: nat)
    requires AssignedValueLayout(s, i, a, q, e)
    ensures AssignedValueAt(s, i) == Some(Match(s[q + 1..e], e + 1))
  {
    DelimiterNotWhitespace(s[a]);
    DelimiterNotWhitespace(s[q]);
    SkipWhitespaceStops(s, i, a);
    SkipWhitespaceStops(s, a + 1, q);
    QuotedAtFinds(s, q, e, MIN_QUOTED_KEY);
  }

  /** `apiKey\s*[:=]\s*['"]…['"]` laid out at `p`: the literal in any letter case, then the shared tail. */
  predicate ApiKeyLayout(s: string, p: nat, a: nat, q: nat, e: nat) {
    LiteralAt(s, p, API_KEY_LITERAL) && AssignedValueLayout(s, p + |API_KEY_LITERAL|, a, q, e)
  }

  /** The `apiKey` scan matches such a layout and captures the quoted text. */
  lemma ApiKeyAtFinds(s: string, p: nat, a: nat, q: nat, e: nat)
    requires ApiKeyLayout(s, p, a, q, e)
    ensures ApiKeyAt(s, p) == Some(Match(s[q + 1..e], e + 1))
  {
    AssignedValueAtFinds(s, p + |API_KEY_LITERAL|, a, q, e);
    assert ApiKeyAt(s, p) == AssignedValueAt(s, p + |API_KEY_LITERAL|);
  }

  /**
   * `x-apikey\s*['"]?\s*[:=]\s*['"]…['"]` laid out at `p`: the literal in any letter case,
   * whitespace up to `b`, where a non-whitespace character stands, then the shared tail, from
   * just after `b` when `b` holds the optional quote and from `b` otherwise.
   */
  predicate HeaderKeyLayout(s: string, p: nat, b: nat, a: nat, q: nat, e: nat) {
    LiteralAt(s, p, HEADER_KEY_LITERAL) && p + |HEADER_KEY_LITERAL| <= b < |s| &&
    (forall k :: p + |HEADER_KEY_LITERAL| <= k < b ==> IsWhitespace(s[k])) && (IsQuote(s[b]) || IsAssign(s[b])) &&
    AssignedValueLayout(s, PastOptionalQuote(s, b), a, q, e)
  }

  /** The `x-apikey` scan matches such a layout, with or without the quote, and captures the quoted text. */
  lemma HeaderKeyAtFinds(s: string, p: nat, b: nat, a: nat, q: nat, e: nat)
    requires HeaderKeyLayout(s, p, b, a, q, e)
    ensures HeaderKeyAt(s, p) == Some(Match(s[q + 1..e], e + 1))
  {
    HeaderKeyAtPrefix(s, p, b);
    AssignedValueAtFinds(s, PastOptionalQuote(s, b), a, q, e);
    HeaderKeyAtTail(s, p);
  }

  /** The `\s*` after the `x-apikey` literal stops at the quote or assignment at `b`. */
  lemma HeaderKeyAtPrefix(s: string, p: nat, b: nat)
    requires p + |HEADER_KEY_LITERAL| <= b < |s| && (IsQuote(s[b]) || IsAssign(s[b]))
    requires forall k :: p + |HEADER_KEY_LITERAL| <= k < b ==> IsWhitespace(s[k])
    ensures SkipWhitespace(s, p + |HEADER_KEY_LITERAL|) == b
  {
    DelimiterNotWhitespace(s[b]);
    SkipWhitespaceStops(s, p + |HEADER_KEY_LITERAL|, b);
  }

  /** Past the literal, the `x-apikey` scan is the optional quote and the shared tail. */
  lemma HeaderKeyAtTail(s: string, p: nat)
    requires LiteralAt(s, p, HEADER_KEY_LITERAL)
    ensures HeaderKeyAt(s, p) == AssignedValueAt(s, PastOptionalQuote(s, SkipWhitespace(s, p + |HEADER_KEY_LITERAL|)))
  {
  }

  /** `SrcRightmost` returns the rightmost `src=` attribute that matches. */
  lemma {:induction false} SrcRightmostFinds(s: string, lo: nat, q: nat, top: nat)
    requires lo <= q <= top && SrcAttrAt(s, q).Some?
    requires forall k :: q < k <= top ==> !LiteralAt(s, k, "src=")
    ensures SrcRightmost(s, lo, top) == SrcAttrAt(s, q)
    decreases top - q
  {
    if q < top {
      assert !LiteralAt(s, top, "src=");
      assert SrcAttrAt(s, top) == None;
      SrcRightmostFinds(s, lo, q, top - 1);
    }
  }

  /**
   * `<script[^>]+src=["']…["'][^>]*>` laid out at `p`: the tag opening, at least one character
   * and no `>` up to `src=` at `q`, a quoted run from `q + 4` to `e`, and the first `>` after
   * it at `h`, with no other `src=` after `q` up to `h`.
   */
  predicate ScriptTagLayout(s: string, p: nat, q: nat, e: nat, h: nat) {
    LiteralAt(s, p, "<script") && p + 8 <= q && LiteralAt(s, q, "src=") &&
    (forall k :: p + 7 <= k < q ==> s[k] != '>') && QuotedRun(s, q + 4, e, 1) &&
    e < h < |s| && s[h] == '>' && (forall k :: e < k < h ==> s[k] != '>') &&
    (forall k :: q < k <= h ==> !LiteralAt(s, k, "src="))
  }

  /** The script-tag scan matches such a layout, captures the source and ends after the `>`. */
  lemma ScriptTagAtFinds(s: string, p: nat, q: nat, e: nat, h: nat)
    requires ScriptTagLayout(s, p, q, e, h)
    ensures ScriptTagAt(s, p) == Some(Match(s[q + 5..e], h + 1))
  {
    QuotedAtFinds(s, q + 4, e, 1);
    IndexOfFinds(s, '>', e + 1, h);
    assert SrcAttrAt(s, q) == Some(Match(s[q + 5..e], h + 1));
    var g := match IndexOf(s, '>', p + 7) case Some(g) => g case None => |s|;
    assert q <= g <= h;
    SrcRightmostFinds(s, p + 8, q, g);
  }

  /** No match of `pat` that starts before `p` runs past `p`. */
  predicate Reached(pat: Pattern, s: string, p: nat) {
    forall q :: 0 <= q < p && Matcher(pat, s)(q).Some? ==> Matcher(pat, s)(q).value.end <= p
  }
}
