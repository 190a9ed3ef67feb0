/**
 * Build mode of the search command: turn lists of terms, phrases, wildcards, OR-terms and raw
 * groups into one query string for the catalog search, with warnings for wildcards that had to
 * be quoted.
 */
module Query {
  import opened Wrappers
  import opened Strings

  const WILDCARD_WARNING: string := "Wildcard contained whitespace and was quoted as a phrase."
  const NO_PARTS_MESSAGE: string := "No query parts provided. Use --term, --phrase, --wildcard, --or, or --group."

  // ---------------------------------------------------------------- quoting

  predicate NeedsEscape(c: char) {
    c == DOUBLE_QUOTE || c == BACKSLASH
  }

  /** `escapeQuotes`: a backslash in front of every `"` and every `\`. */
  function EscapeQuotes(v: string): (r: string)
    ensures |r| >= |v|
    ensures v == [] <==> r == []
  {
    if v == [] then []
    else (if NeedsEscape(v[0]) then [BACKSLASH, v[0]] else [v[0]]) + EscapeQuotes(v[1..])
  }

  /**
   * The reading of an escaped string: a backslash takes the next character literally; a bare
   * `"` or a trailing backslash make it unreadable.
   */
  function Unescape(s: string): Option<string>
    decreases |s|
  {
    if s == [] then Some([])
    else if s[0] == BACKSLASH then
      if |s| < 2 then None
      else match Unescape(s[2..]) case Some(rest) => Some([s[1]] + rest) case None => None
    else if s[0] == DOUBLE_QUOTE then None
    else match Unescape(s[1..]) case Some(rest) => Some([s[0]] + rest) case None => None
  }

  /** Escaping loses nothing: reading the escaped string back gives the original. */
  lemma {:induction false} UnescapeEscape(v: string)
    ensures Unescape(EscapeQuotes(v)) == Some(v)
  {
    if v != [] {
      UnescapeEscape(v[1..]);
      var e := EscapeQuotes(v[1..]);
      if NeedsEscape(v[0]) {
        var w := [BACKSLASH, v[0]] + e;
        assert EscapeQuotes(v) == w && w[0] == BACKSLASH && w[1] == v[0] && |w| >= 2 && w[2..] == e;
        assert Unescape(w) == Some([v[0]] + v[1..]);
        assert [v[0]] + v[1..] == v;
      } else {
        var w := [v[0]] + e;
        assert EscapeQuotes(v) == w && w[0] == v[0] && w[1..] == e;
        assert [v[0]] + v[1..] == v;
      }
    }
  }

  /** Escaping changes nothing in a value without `"` and `\`. */
  lemma {:induction false} EscapeNothing(v: string)
    requires forall k :: 0 <= k < |v| ==> !NeedsEscape(v[k])
    ensures EscapeQuotes(v) == v
  {
    if v != [] {
      EscapeNothing(v[1..]);
      assert [v[0]] + v[1..] == v;
    }
  }

  /** `quote`: the escaped value between double quotes. */
  function Quote(v: string): (r: string)
    ensures |r| >= 2 && r[0] == DOUBLE_QUOTE && r[|r| - 1] == DOUBLE_QUOTE
  {
    [DOUBLE_QUOTE] + EscapeQuotes(v) + [DOUBLE_QUOTE]
  }

  /** The reading of a quoted phrase: strip the surrounding quotes and unescape. */
  function Unquote(q: string): Option<string> {
    if |q| >= 2 && q[0] == DOUBLE_QUOTE && q[|q| - 1] == DOUBLE_QUOTE then Unescape(q[1..|q| - 1]) else None
  }

  /** Quoting loses nothing: every phrase reads back as the value it was built from. */
  lemma UnquoteQuote(v: string)
    ensures Unquote(Quote(v)) == Some(v)
  {
    var q := Quote(v);
    assert q[1..|q| - 1] == EscapeQuotes(v);
    UnescapeEscape(v);
  }

  // ---------------------------------------------------------------- normalizers

  /** A part as the normalizers produce it: not empty, and neither starting nor ending with whitespace. */
  predicate GoodPart(p: string) {
    p != [] && Trimmed(p)
  }

  /** `normalizeTerm`: trimmed; quoted as a phrase when it still holds whitespace; `null` when blank. */
  function NormalizeTerm(v: string): (r: Option<string>)
    ensures r.None? <==> Trim(v) == []
    ensures r.Some? ==> GoodPart(r.value)
  {
    var t := Trim(v);
    if t == [] then None
    else if HasWhitespace(t) then Some(Quote(t))
    else Some(t)
  }

  /**
   * A term is dropped exactly when it is blank; a term without inner whitespace is kept as
   * trimmed, and one with inner whitespace becomes a phrase that reads back as the trimmed term.
   */
  lemma NormalizeTermMeaning(v: string)
    ensures NormalizeTerm(v).None? <==> AllWhitespace(v)
    ensures NormalizeTerm(v).Some? && !HasWhitespace(Trim(v)) ==> NormalizeTerm(v).value == Trim(v)
    ensures NormalizeTerm(v).Some? && HasWhitespace(Trim(v)) ==> Unquote(NormalizeTerm(v).value) == Some(Trim(v))
  {
    TrimFacts(v);
    UnquoteQuote(Trim(v));
  }

  /** `normalizePhrase`: the trimmed value, always quoted; `null` when blank. */
  function NormalizePhrase(v: string): (r: Option<string>)
    ensures r.None? <==> Trim(v) == []
    ensures r.Some? ==> GoodPart(r.value)
  {
    var t := Trim(v);
    if t == [] then None else Some(Quote(t))
  }

  /** A phrase is dropped exactly when it is blank, and otherwise reads back as the trimmed phrase. */
  lemma NormalizePhraseMeaning(v: string)
    ensures NormalizePhrase(v).None? <==> AllWhitespace(v)
    ensures NormalizePhrase(v).Some? ==> Unquote(NormalizePhrase(v).value) == Some(Trim(v))
  {
    TrimFacts(v);
    UnquoteQuote(Trim(v));
  }

  /** What `normalizeWildcard` returns: the token (or `null`) and an optional warning. */
  datatype WildcardToken = WildcardToken(token: Option<string>, warning: Option<string>)

  /**
   * `normalizeWildcard`: like a term, but quoting a wildcard that holds whitespace comes with
   * a warning, since quoting turns it into an exact phrase.
   */
  function NormalizeWildcard(v: string): (r: WildcardToken)
    ensures r.token.None? <==> Trim(v) == []
    ensures r.token.Some? ==> GoodPart(r.token.value)
    ensures r.warning.Some? ==> r.token.Some? && r.warning.value == WILDCARD_WARNING
  {
    var t := Trim(v);
    if t == [] then WildcardToken(None, None)
    else if HasWhitespace(t) then WildcardToken(Some(Quote(t)), Some(WILDCARD_WARNING))
    else WildcardToken(Some(t), None)
  }

  /**
   * A wildcard is dropped exactly when it is blank; it is warned about exactly when it was
   * quoted, which happens exactly when the trimmed wildcard holds whitespace, and the quoted
   * phrase reads back as the trimmed wildcard; otherwise it is kept as trimmed.
   */
  lemma NormalizeWildcardMeaning(v: string)
    ensures NormalizeWildcard(v).token.None? <==> AllWhitespace(v)
    ensures NormalizeWildcard(v).warning.Some? <==> !AllWhitespace(v) && HasWhitespace(Trim(v))
    ensures NormalizeWildcard(v).token.Some? && !HasWhitespace(Trim(v)) ==> NormalizeWildcard(v).token.value == Trim(v)
    ensures NormalizeWildcard(v).warning.Some? ==> Unquote(NormalizeWildcard(v).token.value) == Some(Trim(v))
  {
    TrimFacts(v);
    UnquoteQuote(Trim(v));
  }

  /** `normalizeGroup`: the trimmed value in parentheses; `null` when blank. */
  function NormalizeGroup(v: string): (r: Option<string>)
    ensures r.None? <==> Trim(v) == []
    ensures r.Some? ==> GoodPart(r.value)
  {
    var t := Trim(v);
    if t == [] then None else Some("(" + t + ")")
  }

  /** A group is dropped exactly when it is blank, and otherwise is the trimmed group in parentheses. */
  lemma NormalizeGroupMeaning(v: string)
    ensures NormalizeGroup(v).None? <==> AllWhitespace(v)
    ensures NormalizeGroup(v).Some? ==> var g := NormalizeGroup(v).value;
      |g| >= 2 && g[0] == '(' && g[|g| - 1] == ')' && g[1..|g| - 1] == Trim(v)
  {
    TrimFacts(v);
  }

  // ---------------------------------------------------------------- buildQuery as a value

  /** `QueryBuildInput`: each list may be absent, which counts as empty. */
  datatype QueryInput = QueryInput(
    terms: Option<seq<string>>,
    phrases: Option<seq<string>>,
    wildcards: Option<seq<string>>,
    ors: Option<seq<string>>,
    groups: Option<seq<string>>)

  /** `list ?? []` */
  function OrEmpty(list: Option<seq<string>>): seq<string> {
    match list case Some(vs) => vs case None => []
  }

  /** `QueryBuildResult` */
  datatype QueryResult = QueryResult(query: string, warnings: seq<string>)

  datatype Kind = Term | Phrase | Group

  function Normalize(kind: Kind, v: string): Option<string> {
    match kind
    case Term => NormalizeTerm(v)
    case Phrase => NormalizePhrase(v)
    case Group => NormalizeGroup(v)
  }

  /** Every entry of the list is all whitespace, so normalisation drops them all. */
  predicate Blank(vs: seq<string>) {
    forall k :: 0 <= k < |vs| ==> AllWhitespace(vs[k])
  }

  /** The tokens of one list, in order, blank entries dropped. */
  function Tokens(kind: Kind, vs: seq<string>): seq<string> {
    if vs == [] then []
    else (match Normalize(kind, vs[0]) case Some(t) => [t] case None => []) + Tokens(kind, vs[1..])
  }

  function WildcardTokens(vs: seq<string>): seq<string> {
    if vs == [] then []
    else (match NormalizeWildcard(vs[0]).token case Some(t) => [t] case None => []) + WildcardTokens(vs[1..])
  }

  function WildcardWarnings(vs: seq<string>): seq<string> {
    if vs == [] then []
    else (match NormalizeWildcard(vs[0]).warning case Some(w) => [w] case None => []) + WildcardWarnings(vs[1..])
  }

  /** The OR group: the OR-terms joined by ` OR `, in parentheses. */
  function OrGroup(orTerms: seq<string>): string {
    "(" + Join(orTerms, " OR ") + ")"
  }

  /** The query parts in the order `buildQuery` pushes them. */
  function Parts(input: QueryInput): seq<string> {
    var orTerms := Tokens(Term, OrEmpty(input.ors));
    Tokens(Term, OrEmpty(input.terms)) + Tokens(Phrase, OrEmpty(input.phrases)) + WildcardTokens(OrEmpty(input.wildcards))
    + (if orTerms == [] then [] else [OrGroup(orTerms)])
    + Tokens(Group, OrEmpty(input.groups))
  }

  /** `buildQuery(input)` as a value: the parts joined by spaces and trimmed, or the error it throws. */
  function BuildOutcome(input: QueryInput): Result<QueryResult, string> {
    var query := Trim(Join(Parts(input), " "));
    if query == [] then Failure(NO_PARTS_MESSAGE)
    else Success(QueryResult(query, WildcardWarnings(OrEmpty(input.wildcards))))
  }

  /** One step of `Tokens` from position `i`. */
  lemma TokensStep(kind: Kind, vs: seq<string>, i: nat, done: seq<string>)
    requires i < |vs|
    ensures done + Tokens(kind, vs[i..]) ==
      (match Normalize(kind, vs[i]) case Some(t) => done + [t] case None => done) + Tokens(kind, vs[i + 1..])
  {
    assert vs[i..][0] == vs[i] && vs[i..][1..] == vs[i + 1..];
  }

  /** One step of `WildcardTokens` from position `i`. */
  lemma WildcardTokensStep(vs: seq<string>, i: nat, done: seq<string>)
    requires i < |vs|
    ensures done + WildcardTokens(vs[i..]) ==
      (match NormalizeWildcard(vs[i]).token case Some(t) => done + [t] case None => done) + WildcardTokens(vs[i + 1..])
  {
    assert vs[i..][0] == vs[i] && vs[i..][1..] == vs[i + 1..];
  }

  /** One step of `WildcardWarnings` from position `i`. */
  lemma WildcardWarningsStep(vs: seq<string>, i: nat, warned: seq<string>)
    requires i < |vs|
    ensures warned + WildcardWarnings(vs[i..]) ==
      (match NormalizeWildcard(vs[i]).warning case Some(w) => warned + [w] case None => warned) + WildcardWarnings(vs[i + 1..])
  {
    assert vs[i..][0] == vs[i] && vs[i..][1..] == vs[i + 1..];
  }

  // ---------------------------------------------------------------- properties

  lemma {:induction false} TokensGood(kind: Kind, vs: seq<string>)
    ensures AllGood(Tokens(kind, vs))
  {
    if vs != [] {
      TokensGood(kind, vs[1..]);
    }
  }

  lemma {:induction false} WildcardTokensGood(vs: seq<string>)
    ensures AllGood(WildcardTokens(vs))
  {
    if vs != [] {
      WildcardTokensGood(vs[1..]);
    }
  }

  /** Every part is good. */
  predicate AllGood(parts: seq<string>) {
    forall k :: 0 <= k < |parts| ==> GoodPart(parts[k])
  }

  lemma AllGoodConcat(a: seq<string>, b: seq<string>)
    requires AllGood(a) && AllGood(b)
    ensures AllGood(a + b)
  {
    forall k | 0 <= k < |a + b| ensures GoodPart((a + b)[k]) {
      if k >= |a| { assert (a + b)[k] == b[k - |a|]; }
    }
  }

  /** Every part is non-empty and trimmed. */
  lemma PartsGood(input: QueryInput)
    ensures AllGood(Parts(input))
  {
    var t, p, w, g := Tokens(Term, OrEmpty(input.terms)), Tokens(Phrase, OrEmpty(input.phrases)),
      WildcardTokens(OrEmpty(input.wildcards)), Tokens(Group, OrEmpty(input.groups));
    TokensGood(Term, OrEmpty(input.terms));
    TokensGood(Phrase, OrEmpty(input.phrases));
    WildcardTokensGood(OrEmpty(input.wildcards));
    TokensGood(Group, OrEmpty(input.groups));
    var orTerms := Tokens(Term, OrEmpty(input.ors));
    var o := if orTerms == [] then [] else [OrGroup(orTerms)];
    if orTerms != [] {
      var group := OrGroup(orTerms);
      assert group[0] == '(' && group[|group| - 1] == ')';
    }
    AllGoodConcat(t, p);
    AllGoodConcat(t + p, w);
    AllGoodConcat(t + p + w, o);
    AllGoodConcat(t + p + w + o, g);
    assert Parts(input) == t + p + w + o + g;
    assert AllGood(t + p + w + o + g);
  }

  /** Joining good parts with single spaces gives a trimmed string, empty only for no parts. */
  lemma {:induction false} JoinGood(parts: seq<string>)
    requires AllGood(parts)
    ensures Join(parts, " ") == [] <==> parts == []
    ensures Trimmed(Join(parts, " "))
  {
    if |parts| > 1 {
      JoinGood(parts[1..]);
      var j := Join(parts, " ");
      assert j == parts[0] + " " + Join(parts[1..], " ");
      assert j[0] == parts[0][0];
      assert j[|j| - 1] == Join(parts[1..], " ")[|Join(parts[1..], " ")| - 1];
    }
  }

  /**
   * `buildQuery` throws exactly when no list yields a part; otherwise the final `trim` changes
   * nothing, so the query is the parts joined by single spaces.
   */
  lemma BuildOutcomeFacts(input: QueryInput)
    ensures BuildOutcome(input).Failure? <==> Parts(input) == []
    ensures BuildOutcome(input).Failure? ==> BuildOutcome(input).error == NO_PARTS_MESSAGE
    ensures BuildOutcome(input).Success? ==> BuildOutcome(input).value.query == Join(Parts(input), " ")
  {
    PartsGood(input);
    JoinGood(Parts(input));
    TrimOfTrimmed(Join(Parts(input), " "));
  }

  /** The number of wildcards whose trimmed value holds whitespace. */
  function QuotedWildcardCount(vs: seq<string>): nat {
    if vs == [] then 0
    else (if !AllWhitespace(vs[0]) && HasWhitespace(Trim(vs[0])) then 1 else 0) + QuotedWildcardCount(vs[1..])
  }

  /** One warning, always the same text, per wildcard that had to be quoted, and none otherwise. */
  lemma {:induction false} WarningsFacts(vs: seq<string>)
    ensures |WildcardWarnings(vs)| == QuotedWildcardCount(vs) <= |vs|
    ensures forall k :: 0 <= k < |WildcardWarnings(vs)| ==> WildcardWarnings(vs)[k] == WILDCARD_WARNING
  {
    if vs != [] {
      WarningsFacts(vs[1..]);
      NormalizeWildcardMeaning(vs[0]);
    }
  }

  /** A list yields a token for each entry that is not blank, in order. */
  lemma {:induction false} TokensEmpty(kind: Kind, vs: seq<string>)
    ensures Tokens(kind, vs) == [] <==> Blank(vs)
  {
    if vs != [] {
      TokensEmpty(kind, vs[1..]);
      TrimFacts(vs[0]);
      assert Normalize(kind, vs[0]).None? <==> AllWhitespace(vs[0]);
      assert forall k :: 1 <= k < |vs| ==> vs[k] == vs[1..][k - 1];
    }
  }

  /** A wildcard list yields no token exactly when every wildcard is all whitespace. */
  lemma {:induction false} WildcardTokensEmpty(vs: seq<string>)
    ensures WildcardTokens(vs) == [] <==> Blank(vs)
  {
    if vs != [] {
      WildcardTokensEmpty(vs[1..]);
      NormalizeWildcardMeaning(vs[0]);
      assert forall k :: 1 <= k < |vs| ==> vs[k] == vs[1..][k - 1];
    }
  }

  /**
   * `buildQuery` throws exactly when every entry of every list is all whitespace (an absent
   * list has no entries).
   */
  lemma BuildFailsIffBlank(input: QueryInput)
    ensures BuildOutcome(input).Failure? <==>
      Blank(OrEmpty(input.terms)) && Blank(OrEmpty(input.phrases)) && Blank(OrEmpty(input.wildcards))
      && Blank(OrEmpty(input.ors)) && Blank(OrEmpty(input.groups))
  {
    BuildOutcomeFacts(input);
    TokensEmpty(Term, OrEmpty(input.terms));
    TokensEmpty(Phrase, OrEmpty(input.phrases));
    WildcardTokensEmpty(OrEmpty(input.wildcards));
    TokensEmpty(Term, OrEmpty(input.ors));
    TokensEmpty(Group, OrEmpty(input.groups));
  }

  /** The OR group appears exactly when some OR-term is not blank. */
  lemma OrGroupPresent(input: QueryInput)
    ensures (exists k :: 0 <= k < |Parts(input)| && Parts(input)[k] == OrGroup(Tokens(Term, OrEmpty(input.ors))))
      <== (exists k :: 0 <= k < |OrEmpty(input.ors)| && !AllWhitespace(OrEmpty(input.ors)[k]))
    ensures Blank(OrEmpty(input.ors)) ==>
      Parts(input) == Tokens(Term, OrEmpty(input.terms)) + Tokens(Phrase, OrEmpty(input.phrases))
        + WildcardTokens(OrEmpty(input.wildcards)) + Tokens(Group, OrEmpty(input.groups))
  {
    TokensEmpty(Term, OrEmpty(input.ors));
    var a := Tokens(Term, OrEmpty(input.terms)) + Tokens(Phrase, OrEmpty(input.phrases)) + WildcardTokens(OrEmpty(input.wildcards));
    var orTerms := Tokens(Term, OrEmpty(input.ors));
    if orTerms != [] {
      assert Parts(input)[|a|] == OrGroup(orTerms);
    }
  }

  // ---------------------------------------------------------------- worked examples

  /** No lists at all: `buildQuery` throws. */
  lemma EmptyInputExample()
    ensures BuildOutcome(QueryInput(None, None, None, None, None)) == Failure(NO_PARTS_MESSAGE)
  {
    assert Parts(QueryInput(None, None, None, None, None)) == [];
  }

  // ---------------------------------------------------------------- buildQuery

  /** `buildQuery`: five loops pushing tokens and warnings, then the join, the trim and the emptiness check. */
  method BuildQuery(input: QueryInput) returns (r: Result<QueryResult, string>)
    ensures r == BuildOutcome(input)
  {
    var parts: seq<string> := [];
    var warnings: seq<string> := [];

    var terms := OrEmpty(input.terms);
    for i := 0 to |terms|
      invariant parts + Tokens(Term, terms[i..]) == Tokens(Term, terms)
    {
      TokensStep(Term, terms, i, parts);
      var token := NormalizeTerm(terms[i]);
      if token.Some? {
        parts := parts + [token.value];
      }
    }
    assert terms[|terms|..] == [];
    assert parts == Tokens(Term, terms);
    ghost var afterTerms := parts;

    var phrases := OrEmpty(input.phrases);
    for i := 0 to |phrases|
      invariant parts + Tokens(Phrase, phrases[i..]) == afterTerms + Tokens(Phrase, phrases)
    {
      TokensStep(Phrase, phrases, i, parts);
      var token := NormalizePhrase(phrases[i]);
      if token.Some? {
        parts := parts + [token.value];
      }
    }
    assert phrases[|phrases|..] == [];
    assert parts == Tokens(Term, terms) + Tokens(Phrase, phrases);
    ghost var afterPhrases := parts;

    var wildcards := OrEmpty(input.wildcards);
    for i := 0 to |wildcards|
      invariant parts + WildcardTokens(wildcards[i..]) == afterPhrases + WildcardTokens(wildcards)
      invariant warnings + WildcardWarnings(wildcards[i..]) == WildcardWarnings(wildcards)
    {
      WildcardTokensStep(wildcards, i, parts);
      WildcardWarningsStep(wildcards, i, warnings);
      var normalized := NormalizeWildcard(wildcards[i]);
      if normalized.warning.Some? {
        warnings := warnings + [normalized.warning.value];
      }
      if normalized.token.Some? {
        parts := parts + [normalized.token.value];
      }
    }

    assert wildcards[|wildcards|..] == [];
    assert parts == afterPhrases + WildcardTokens(wildcards);
    assert warnings == WildcardWarnings(wildcards);
    var orTerms: seq<string> := [];
    var ors := OrEmpty(input.ors);
    for i := 0 to |ors|
      invariant orTerms + Tokens(Term, ors[i..]) == Tokens(Term, ors)
    {
      TokensStep(Term, ors, i, orTerms);
      var token := NormalizeTerm(ors[i]);
      if token.Some? {
        orTerms := orTerms + [token.value];
      }
    }
    assert ors[|ors|..] == [];
    assert orTerms == Tokens(Term, ors);
    if |orTerms| > 0 {
      parts := parts + ["(" + Join(orTerms, " OR ") + ")"];
    }
    ghost var beforeGroups := parts;
    assert beforeGroups == afterPhrases + WildcardTokens(wildcards) + (if orTerms == [] then [] else [OrGroup(orTerms)]);

    var groups := OrEmpty(input.groups);
    for i := 0 to |groups|
      invariant parts + Tokens(Group, groups[i..]) == beforeGroups + Tokens(Group, groups)
    {
      TokensStep(Group, groups, i, parts);
      var token := NormalizeGroup(groups[i]);
      if token.Some? {
        parts := parts + [token.value];
      }
    }

    assert groups[|groups|..] == [];
    assert parts == beforeGroups + Tokens(Group, groups);
    assert parts == Parts(input);
    var query := Trim(Join(parts, " "));
    if query == [] {
      r := Failure(NO_PARTS_MESSAGE);
    } else {
      r := Success(QueryResult(query, warnings));
    }
  }
}
