/**
 * API-key discovery: fetch an entry page of the web site, harvest key-shaped strings from it
 * and from the scripts it loads, and return the first one the catalog API accepts.
 *
 * The network is two oracles: `fetch` (what `fetchText` yields for a URL: the body, or the
 * message of the error it throws) and `validate` (what `validateKey` yields for a key). Ghost
 * logs record every URL fetched and every key validated, in order, so that "nothing later was
 * tried" can be stated.
 */
module Auth {
  import opened Wrappers
  import opened Strings
  import opened InsertionSet
  import opened Sequences
  import opened Patterns

  const BASE_URL: string := "https://www.marktguru.at"
  const MAX_SCRIPTS: nat := 20
  const MAX_TOKEN_LENGTH: nat := 60

  const ENTRY_URLS: seq<string> := [
    BASE_URL + "/",
    BASE_URL + "/search",
    BASE_URL + "/search?q=test",
    BASE_URL + "/suche",
    BASE_URL + "/suche?q=test"
  ]

  const NO_URLS_MESSAGE: string := "No URLs to fetch."
  const NO_SCRIPTS_MESSAGE: string := "No scripts found to scan for API keys."
  const NO_VALID_KEY_MESSAGE: string := "Failed to capture a valid API key. The site may have changed."

  /** What `fetchText(url, headers)` does: resolves to the body or rejects with an error message. */
  type Fetcher = string -> Result<string, string>

  /**
   * What `validateKey(key)` settles to: whether the API answered 2xx, or the message of the
   * error it throws (a network failure or the 15-second abort).
   */
  type Validator = string -> Result<bool, string>

  /** `{ url, text }` as returned by `fetchFirstOk`. */
  datatype Page = Page(url: string, text: string)

  /** The ways `extractApiKey` throws. */
  datatype DiscoveryError =
    | EntryFetchFailed(message: string)
    | NoScripts
    | ValidationFailed(message: string)
    | NoValidKey
  {
    /** The `message` of the thrown error. */
    function Message(): string {
      match this
      case EntryFetchFailed(m) => m
      case NoScripts => NO_SCRIPTS_MESSAGE
      case ValidationFailed(m) => m
      case NoValidKey => NO_VALID_KEY_MESSAGE
    }
  }

  // ---------------------------------------------------------------- script URLs

  /**
   * The normalisation of one `src` value: `//host/...` gets `https:` in front, `/path` gets
   * the site origin in front, and whatever then does not start with `http` is dropped.
   */
  function NormalizeSrc(src: string): (r: Option<string>)
    ensures r.Some? <==> StartsWith(src, "/") || StartsWith(src, "http")
    ensures r.Some? ==> StartsWith(r.value, "http")
    ensures StartsWith(src, "//") ==> r == Some("https:" + src)
    ensures StartsWith(src, "/") && !StartsWith(src, "//") ==> r == Some(BASE_URL + src)
    ensures StartsWith(src, "http") ==> r == Some(src)
  {
    var a := if StartsWith(src, "//") then "https:" + src else src;
    assert StartsWith(src, "//") ==> a[..4] == "https:"[..4] == "http" && a[0] == 'h';
    assert StartsWith(src, "http") ==> src[0] == 'h' && a == src;
    var b := if StartsWith(a, "/") then BASE_URL + a else a;
    assert StartsWith(a, "/") ==> b[..4] == BASE_URL[..4] == "http";
    assert StartsWith(src, "/") && !StartsWith(src, "//") ==> a == src;
    if StartsWith(b, "http") then Some(b) else None
  }

  /** What one matched source contributes: its normalised URL, or nothing. */
  function KeptSource(src: string): seq<string> {
    match NormalizeSrc(src) case Some(u) => [u] case None => []
  }

  /** The normalised sources that survive, in match order (duplicates not yet removed). */
  function KeptSources(srcs: seq<string>): seq<string> {
    FlatMap(srcs, KeptSource)
  }

  /** A URL is kept exactly when some source normalises to it; every kept URL is absolute. */
  lemma {:induction false} KeptSourcesMembership(srcs: seq<string>)
    ensures forall u :: u in KeptSources(srcs) <==> exists k :: 0 <= k < |srcs| && NormalizeSrc(srcs[k]) == Some(u)
    ensures forall u :: u in KeptSources(srcs) ==> StartsWith(u, "http")
  {
    if srcs != [] {
      var rest := srcs[1..];
      KeptSourcesMembership(rest);
      assert KeptSources(srcs) == KeptSource(srcs[0]) + KeptSources(rest);
      forall u ensures u in KeptSources(srcs) <==> exists k :: 0 <= k < |srcs| && NormalizeSrc(srcs[k]) == Some(u) {
        if k :| 0 <= k < |rest| && NormalizeSrc(rest[k]) == Some(u) {
          assert NormalizeSrc(srcs[k + 1]) == Some(u);
        }
        if k :| 0 < k < |srcs| && NormalizeSrc(srcs[k]) == Some(u) {
          assert NormalizeSrc(rest[k - 1]) == Some(u);
        }
      }
    }
  }

  /** Normalisation works source by source, so the kept URLs follow the order of their sources. */
  lemma KeptSourcesAppend(a: seq<string>, b: seq<string>)
    ensures KeptSources(a + b) == KeptSources(a) + KeptSources(b)
  {
    FlatMapAppend(a, b, KeptSource);
  }

  /** `extractScriptUrls(html)` as a value: the set of kept, normalised script sources. */
  function ScriptUrls(html: string): seq<string> {
    Dedup(KeptSources(AllMatches(ScriptTag, html, 0)))
  }

  /**
   * Script URLs are absolute (`http...`), duplicate-free, and listed in the order in which
   * they first occur in the page.
   */
  lemma ScriptUrlsFacts(html: string)
    ensures NoDup(ScriptUrls(html))
    ensures forall u :: u in ScriptUrls(html) ==> StartsWith(u, "http")
    ensures forall u :: u in ScriptUrls(html) <==> u in KeptSources(AllMatches(ScriptTag, html, 0))
    ensures InFirstOccurrenceOrder(ScriptUrls(html), KeptSources(AllMatches(ScriptTag, html, 0)))
  {
    DedupFacts(KeptSources(AllMatches(ScriptTag, html, 0)));
    KeptSourcesMembership(AllMatches(ScriptTag, html, 0));
  }

  /**
   * The `src` of a script tag laid out at `p` is kept, normalised, unless an earlier script-tag
   * match runs past `p`; it is dropped only when it starts with neither `/` nor `http`.
   */
  lemma ScriptSrcKept(html: string, p: nat, q: nat, e: nat, h: nat)
    requires ScriptTagLayout(html, p, q, e, h) && Reached(ScriptTag, html, p)
    requires StartsWith(html[q + 5..e], "/") || StartsWith(html[q + 5..e], "http")
    ensures NormalizeSrc(html[q + 5..e]).value in ScriptUrls(html)
  {
    var src := html[q + 5..e];
    ScriptTagAtFinds(html, p, q, e, h);
    assert Matcher(ScriptTag, html)(p) == ScriptTagAt(html, p);
    AllMatchesReaches(ScriptTag, html, 0, p);
    var srcs := AllMatches(ScriptTag, html, 0);
    var k :| 0 <= k < |srcs| && srcs[k] == src;
    KeptSourcesMembership(srcs);
    ScriptUrlsFacts(html);
  }

  /** `extractScriptUrls`: loops over `<script ... src=...>` matches and adds each kept URL to a `Set`. */
  method ExtractScriptUrls(html: string) returns (urls: seq<string>)
    ensures urls == ScriptUrls(html)
    ensures NoDup(urls) && forall u :: u in urls ==> StartsWith(u, "http")
  {
    urls := [];
    var last := 0;
    var m := Exec(ScriptTag, html, last);
    while m.Some?
      invariant last <= |html| && m == Exec(ScriptTag, html, last)
      invariant AddAll(urls, KeptSources(AllMatches(ScriptTag, html, last))) == ScriptUrls(html)
      decreases |html| - last
    {
      var src := m.value.value;
      ghost var raw, before := src, urls;
      ghost var rest := AllMatches(ScriptTag, html, m.value.end);
      assert AllMatches(ScriptTag, html, last) == [src] + rest;
      assert ([src] + rest)[0] == src && ([src] + rest)[1..] == rest;
      assert KeptSources([src] + rest) == KeptSource(raw) + KeptSources(rest);
      if StartsWith(src, "//") {
        src := "https:" + src;
      }
      if StartsWith(src, "/") {
        src := BASE_URL + src;
      }
      if StartsWith(src, "http") {
        assert KeptSource(raw) == [src];
        AddAllCons(before, src, KeptSources(rest));
        urls := Add(urls, src);
        assert [src] + KeptSources(rest) == KeptSources(AllMatches(ScriptTag, html, last));
      } else {
        assert KeptSource(raw) == [];
        assert [] + KeptSources(rest) == KeptSources(rest);
      }
      assert AddAll(urls, KeptSources(rest)) == AddAll(before, KeptSources(AllMatches(ScriptTag, html, last)));
      last := m.value.end;
      m := Exec(ScriptTag, html, last);
    }
    ScriptUrlsFacts(html);
  }

  // ---------------------------------------------------------------- candidates

  /** The length and padding filter applied to base64 matches. */
  predicate TokenLike(v: string) {
    MIN_BASE64_RUN <= |v| <= MAX_TOKEN_LENGTH && '=' in v
  }

  /** The three scans in the order `findCandidates` runs them, before duplicates are removed. */
  function Harvest(text: string): seq<string> {
    AllMatches(HeaderKey, text, 0) + AllMatches(ApiKeyField, text, 0) + Keep(AllMatches(Base64Run, text, 0), TokenLike)
  }

  /** `findCandidates(text)` as a value. */
  function Candidates(text: string): seq<string> {
    Dedup(Harvest(text))
  }

  /** A string that one of the three scans can report. */
  predicate CandidateShaped(c: string) {
    (|c| >= MIN_QUOTED_KEY && NoQuotes(c)) || (Base64Shaped(c) && TokenLike(c))
  }

  /**
   * `findCandidates` returns each value once: `x-apikey` values first, then `apiKey` values,
   * then padded base64 runs, each group in text order; every value is either a quote-free
   * string of at least 10 characters or a padded base64 run of 40 to 60 characters.
   */
  lemma CandidatesFacts(text: string)
    ensures NoDup(Candidates(text))
    ensures forall c :: c in Candidates(text) <==> c in Harvest(text)
    ensures InFirstOccurrenceOrder(Candidates(text), Harvest(text))
    ensures forall c :: c in Candidates(text) ==> CandidateShaped(c)
  {
    DedupFacts(Harvest(text));
    HarvestShaped(text);
  }

  /**
   * The union of the three scans: a value is harvested exactly when one of the two quoted-key
   * scans reports it, or the base64 scan reports it and it passes the length and padding filter.
   */
  lemma HarvestMembership(text: string)
    ensures forall c :: c in Harvest(text) <==>
      c in AllMatches(HeaderKey, text, 0) || c in AllMatches(ApiKeyField, text, 0) ||
      (c in AllMatches(Base64Run, text, 0) && TokenLike(c))
  {
    KeepMembership(AllMatches(Base64Run, text, 0), TokenLike);
  }

  lemma HarvestShaped(text: string)
    ensures forall c :: c in Harvest(text) ==> CandidateShaped(c)
  {
    var h, a, b := AllMatches(HeaderKey, text, 0), AllMatches(ApiKeyField, text, 0), AllMatches(Base64Run, text, 0);
    HarvestMembership(text);
    forall c | c in Harvest(text) ensures CandidateShaped(c) {
      if c in h {
        var k :| 0 <= k < |h| && h[k] == c;
      } else if c in a {
        var k :| 0 <= k < |a| && a[k] == c;
      } else {
        var j :| 0 <= j < |b| && b[j] == c;
      }
    }
  }

  /**
   * A stand-alone padded base64 run of 40 to 60 characters is a candidate: one that starts the
   * text or follows a character outside the alphabet, and holds one or two `=` with no further
   * `=` after them.
   */
  lemma PaddedTokenKept(text: string, p: nat, n: nat, m: nat)
    requires PaddedRunAt(text, p, n, m) && 1 <= m && n + m <= MAX_TOKEN_LENGTH
    requires p == 0 || !IsBase64Char(text[p - 1])
    ensures text[p..p + n + m] in Candidates(text)
  {
    var v := text[p..p + n + m];
    PaddedRunFound(text, p, n, m);
    assert v[n] == '=';
    HarvestMembership(text);
    CandidatesFacts(text);
  }

  /** A quoted `x-apikey` value laid out at `p` is a candidate, unless an earlier `x-apikey` match runs past `p`. */
  lemma HeaderKeyKept(text: string, p: nat, b: nat, a: nat, q: nat, e: nat)
    requires HeaderKeyLayout(text, p, b, a, q, e) && Reached(HeaderKey, text, p)
    ensures text[q + 1..e] in Candidates(text)
  {
    HeaderKeyAtFinds(text, p, b, a, q, e);
    assert Matcher(HeaderKey, text)(p) == HeaderKeyAt(text, p);
    AllMatchesReaches(HeaderKey, text, 0, p);
    HarvestMembership(text);
    CandidatesFacts(text);
  }

  /** A quoted `apiKey` value laid out at `p` is a candidate, unless an earlier `apiKey` match runs past `p`. */
  lemma ApiKeyKept(text: string, p: nat, a: nat, q: nat, e: nat)
    requires ApiKeyLayout(text, p, a, q, e) && Reached(ApiKeyField, text, p)
    ensures text[q + 1..e] in Candidates(text)
  {
    ApiKeyAtFinds(text, p, a, q, e);
    assert Matcher(ApiKeyField, text)(p) == ApiKeyAt(text, p);
    AllMatchesReaches(ApiKeyField, text, 0, p);
    HarvestMembership(text);
    CandidatesFacts(text);
  }

  /**
   * A page that is just `apiKey: "…"`, with at least 10 quote-free characters between the
   * quotes, yields those characters as a candidate; `abcdef0123456789` is one such value.
   */
  lemma ApiKeyExample(key: string)
    requires |key| >= MIN_QUOTED_KEY && NoQuotes(key)
    ensures key in Candidates("apiKey: " + [DOUBLE_QUOTE] + key + [DOUBLE_QUOTE])
  {
    var head := "apiKey: " + [DOUBLE_QUOTE];
    var text := head + key + [DOUBLE_QUOTE];
    var e := |head| + |key|;
    assert forall k :: 0 <= k < |head| ==> text[k] == head[k];
    assert forall k :: |head| <= k < e ==> text[k] == key[k - |head|];
    assert text[e] == DOUBLE_QUOTE;
    assert LiteralAt(text, 0, API_KEY_LITERAL);
    assert text[|head|..e] == key;
    ApiKeyKept(text, 0, 6, 8, e);
  }

  /** One global `exec` loop of `findCandidates`: every match, in order, added to the set. */
  method AddMatches(pat: Pattern, text: string, found: seq<string>) returns (next: seq<string>)
    ensures next == AddAll(found, AllMatches(pat, text, 0))
  {
    next := found;
    var last := 0;
    var m := Exec(pat, text, last);
    while m.Some?
      invariant last <= |text| && m == Exec(pat, text, last)
      invariant AddAll(next, AllMatches(pat, text, last)) == AddAll(found, AllMatches(pat, text, 0))
      decreases |text| - last
    {
      AllMatchesStep(pat, text, last);
      AddAllCons(next, m.value.value, AllMatches(pat, text, m.value.end));
      next := Add(next, m.value.value);
      last := m.value.end;
      m := Exec(pat, text, last);
    }
    AllMatchesDone(pat, text, last);
  }

  /** `findCandidates`: three `exec` loops adding to one `Set`. */
  method FindCandidates(text: string) returns (candidates: seq<string>)
    ensures candidates == Candidates(text)
  {
    candidates := AddMatches(HeaderKey, text, []);
    ghost var afterHeader := candidates;
    candidates := AddMatches(ApiKeyField, text, candidates);
    ghost var afterApiKey := candidates;

    var last := 0;
    var m := Exec(Base64Run, text, last);
    while m.Some?
      invariant last <= |text| && m == Exec(Base64Run, text, last)
      invariant AddAll(candidates, Keep(AllMatches(Base64Run, text, last), TokenLike))
        == AddAll(afterApiKey, Keep(AllMatches(Base64Run, text, 0), TokenLike))
      decreases |text| - last
    {
      var value := m.value.value;
      AllMatchesStep(Base64Run, text, last);
      ghost var rest := AllMatches(Base64Run, text, m.value.end);
      assert ([value] + rest)[1..] == rest;
      if |value| >= MIN_BASE64_RUN && |value| <= MAX_TOKEN_LENGTH && '=' in value {
        AddAllCons(candidates, value, Keep(rest, TokenLike));
        candidates := Add(candidates, value);
      } else {
        assert Keep([value] + rest, TokenLike) == Keep(rest, TokenLike);
      }
      last := m.value.end;
      m := Exec(Base64Run, text, last);
    }
    AllMatchesDone(Base64Run, text, last);
    ghost var h, a, b := AllMatches(HeaderKey, text, 0), AllMatches(ApiKeyField, text, 0), Keep(AllMatches(Base64Run, text, 0), TokenLike);
    assert afterHeader == AddAll([], h);
    assert afterApiKey == AddAll(afterHeader, a);
    assert candidates == AddAll(afterApiKey, b);
    AddAllAppend([], h, a);
    AddAllAppend([], h + a, b);
  }

  // ---------------------------------------------------------------- fetching

  /** `fetchFirstOk(urls)` as a value: the first URL that fetches, or the error of the last attempt. */
  function FirstOk(urls: seq<string>, fetch: Fetcher): Result<Page, string> {
    if urls == [] then Failure(NO_URLS_MESSAGE)
    else
      match fetch(urls[0])
      case Success(text) => Success(Page(urls[0], text))
      case Failure(e) => if |urls| == 1 then Failure(e) else FirstOk(urls[1..], fetch)
  }

  /**
   * `fetchFirstOk` succeeds with the first URL, in list order, that fetches, after every
   * earlier one failed; when all fail it reports the last URL's error, and on an empty list
   * "No URLs to fetch.".
   */
  lemma {:induction false} FirstOkMeaning(urls: seq<string>, fetch: Fetcher)
    ensures FirstOk(urls, fetch).Success? <==> exists i :: 0 <= i < |urls| && fetch(urls[i]).Success?
    ensures FirstOk(urls, fetch).Success? ==>
      exists i :: 0 <= i < |urls| && fetch(urls[i]).Success? && FirstOk(urls, fetch) == Success(Page(urls[i], fetch(urls[i]).value)) &&
        forall j :: 0 <= j < i ==> fetch(urls[j]).Failure?
    ensures urls == [] ==> FirstOk(urls, fetch) == Failure(NO_URLS_MESSAGE)
    ensures urls != [] && FirstOk(urls, fetch).Failure? ==> FirstOk(urls, fetch).error == fetch(urls[|urls| - 1]).error
  {
    if urls != [] && fetch(urls[0]).Failure? && |urls| > 1 {
      var rest := urls[1..];
      FirstOkMeaning(rest, fetch);
      if FirstOk(rest, fetch).Success? {
        var i :| 0 <= i < |rest| && fetch(rest[i]).Success? && FirstOk(rest, fetch) == Success(Page(rest[i], fetch(rest[i]).value)) &&
          forall j :: 0 <= j < i ==> fetch(rest[j]).Failure?;
        assert urls[i + 1] == rest[i];
        assert forall j :: 0 <= j < i + 1 ==> fetch(urls[j]).Failure? by {
          forall j | 0 <= j < i + 1 ensures fetch(urls[j]).Failure? {
            if j > 0 { assert urls[j] == rest[j - 1]; }
          }
        }
      } else {
        assert urls[|urls| - 1] == rest[|rest| - 1];
        forall i | 0 <= i < |urls| ensures fetch(urls[i]).Failure? {
          if i > 0 { assert urls[i] == rest[i - 1]; }
        }
      }
    }
  }

  /** The URLs `fetchFirstOk` fetches, in order: up to and including the first that succeeds, or all of them. */
  function Attempts(urls: seq<string>, fetch: Fetcher): (tried: seq<string>)
    ensures |tried| <= |urls|
  {
    if urls == [] then []
    else if fetch(urls[0]).Success? then [urls[0]]
    else [urls[0]] + Attempts(urls[1..], fetch)
  }

  /**
   * Every URL fetched before the last one failed; on success the page comes from the last URL
   * fetched, and on failure every URL was fetched.
   */
  lemma {:induction false} AttemptsFacts(urls: seq<string>, fetch: Fetcher)
    ensures Attempts(urls, fetch) <= urls
    ensures forall k :: 0 <= k < |Attempts(urls, fetch)| - 1 ==> fetch(Attempts(urls, fetch)[k]).Failure?
    ensures FirstOk(urls, fetch).Success? ==>
      Attempts(urls, fetch) != [] && FirstOk(urls, fetch).value.url == Attempts(urls, fetch)[|Attempts(urls, fetch)| - 1]
    ensures FirstOk(urls, fetch).Failure? ==> Attempts(urls, fetch) == urls
  {
    if urls != [] && fetch(urls[0]).Failure? {
      var rest := urls[1..];
      AttemptsFacts(rest, fetch);
      var tried := Attempts(rest, fetch);
      assert Attempts(urls, fetch) == [urls[0]] + tried;
      forall k | 0 < k < |tried| ensures fetch(Attempts(urls, fetch)[k]).Failure? {
        assert Attempts(urls, fetch)[k] == tried[k - 1];
      }
      assert [urls[0]] + rest == urls;
      if |urls| == 1 {
        assert tried == [];
      }
    }
  }

  /** `fetchFirstOk`: tries the URLs in order, remembering the last error, and stops at the first success. */
  method FetchFirstOk(urls: seq<string>, fetch: Fetcher) returns (r: Result<Page, string>, ghost attempted: seq<string>)
    ensures r == FirstOk(urls, fetch)
    ensures attempted == Attempts(urls, fetch)
  {
    var lastError: Option<string> := None;
    attempted := [];
    var i := 0;
    while i < |urls|
      invariant i <= |urls|
      invariant forall k :: 0 <= k < i ==> fetch(urls[k]).Failure?
      invariant Attempts(urls, fetch) == attempted + Attempts(urls[i..], fetch)
      invariant lastError == if i == 0 then None else Some(fetch(urls[i - 1]).error)
      invariant FirstOk(urls, fetch) ==
        if i < |urls| then FirstOk(urls[i..], fetch)
        else if i == 0 then Failure(NO_URLS_MESSAGE) else Failure(fetch(urls[i - 1]).error)
    {
      assert urls[i..][0] == urls[i] && urls[i..][1..] == urls[i + 1..];
      AttemptsStep(urls, i, fetch);
      ghost var before := attempted;
      attempted := attempted + [urls[i]];
      var outcome := fetch(urls[i]);
      if outcome.Success? {
        r := Success(Page(urls[i], outcome.value));
        assert Attempts(urls, fetch) == before + [urls[i]];
        return;
      }
      assert Attempts(urls, fetch) == attempted + Attempts(urls[i + 1..], fetch);
      lastError := Some(outcome.error);
      i := i + 1;
    }
    assert urls[i..] == [];
    if lastError.Some? {
      r := Failure(lastError.value);
    } else {
      r := Failure(NO_URLS_MESSAGE);
    }
  }

  /** One URL tried: it is fetched, and the attempts go on after it only when it failed. */
  lemma AttemptsStep(urls: seq<string>, i: nat, fetch: Fetcher)
    requires i < |urls|
    ensures Attempts(urls[i..], fetch) ==
      [urls[i]] + (if fetch(urls[i]).Success? then [] else Attempts(urls[i + 1..], fetch))
  {
    assert urls[i..][0] == urls[i] && urls[i..][1..] == urls[i + 1..];
  }

  // ---------------------------------------------------------------- the pipeline

  /** `scripts.slice(0, MAX_SCRIPTS)` */
  function TakeScripts(urls: seq<string>): (r: seq<string>)
    ensures |r| <= MAX_SCRIPTS && r <= urls
    ensures |r| == if |urls| <= MAX_SCRIPTS then |urls| else MAX_SCRIPTS
  {
    if |urls| <= MAX_SCRIPTS then urls else urls[..MAX_SCRIPTS]
  }

  /** The candidates of every script that fetches, script by script; a script that fails adds nothing. */
  function ScriptCandidates(scripts: seq<string>, fetch: Fetcher): seq<string> {
    FlatMap(scripts, ScriptFinds(fetch))
  }

  /** What scanning one script finds: its candidates when it fetches, nothing when it does not. */
  function ScriptFinds(fetch: Fetcher): string -> seq<string> {
    url => match fetch(url) case Success(text) => Candidates(text) case Failure(_) => []
  }

  /** Scanning two runs of scripts in a row finds the candidates of the first, then those of the second. */
  lemma ScriptCandidatesAppend(a: seq<string>, b: seq<string>, fetch: Fetcher)
    ensures ScriptCandidates(a + b, fetch) == ScriptCandidates(a, fetch) + ScriptCandidates(b, fetch)
  {
    FlatMapAppend(a, b, ScriptFinds(fetch));
  }

  /** One more script scanned: what it finds comes after the candidates found so far. */
  lemma ScriptCandidatesSnoc(scripts: seq<string>, i: nat, fetch: Fetcher)
    requires i < |scripts|
    ensures ScriptCandidates(scripts[..i + 1], fetch) == ScriptCandidates(scripts[..i], fetch) + ScriptFinds(fetch)(scripts[i])
  {
    assert scripts[..i + 1] == scripts[..i] + [scripts[i]];
    ScriptCandidatesAppend(scripts[..i], [scripts[i]], fetch);
    assert [scripts[i]][1..] == [];
    var found := ScriptFinds(fetch)(scripts[i]);
    assert FlatMap([scripts[i]], ScriptFinds(fetch)) == found + FlatMap([], ScriptFinds(fetch));
    assert ScriptCandidates([scripts[i]], fetch) == found;
  }

  /** The candidate set after the script loop: the entry page's candidates, then each script's new ones. */
  function CandidatePool(html: string, scripts: seq<string>, fetch: Fetcher): seq<string> {
    AddAll(Candidates(html), ScriptCandidates(scripts, fetch))
  }

  /**
   * The first candidate, in set order, that the validator accepts (`None` when it rejects
   * them all), or the error of the first validation that throws before that.
   */
  function FirstValid(candidates: seq<string>, validate: Validator): Result<Option<string>, string> {
    if candidates == [] then Success(None)
    else
      match validate(candidates[0])
      case Failure(e) => Failure(e)
      case Success(ok) => if ok then Success(Some(candidates[0])) else FirstValid(candidates[1..], validate)
  }

  /** `extractApiKey()` as a value. */
  function Discover(fetch: Fetcher, validate: Validator): Result<string, DiscoveryError> {
    match FirstOk(ENTRY_URLS, fetch)
    case Failure(e) => Failure(EntryFetchFailed(e))
    case Success(page) => DiscoverIn(page.text, fetch, validate)
  }

  /** What `extractApiKey` settles to once the entry page's HTML is known. */
  function DiscoverIn(html: string, fetch: Fetcher, validate: Validator): Result<string, DiscoveryError> {
    var scripts := TakeScripts(ScriptUrls(html));
    if scripts == [] then Failure(NoScripts)
    else Verdict(FirstValid(CandidatePool(html, scripts, fetch), validate))
  }

  /** How the validation loop ends becomes the result of `extractApiKey`. */
  function Verdict(found: Result<Option<string>, string>): (r: Result<string, DiscoveryError>)
    ensures r.Success? <==> found.Success? && found.value.Some?
    ensures r.Success? ==> found == Success(Some(r.value))
  {
    match found
    case Failure(e) => Failure(ValidationFailed(e))
    case Success(Some(key)) => Success(key)
    case Success(None) => Failure(NoValidKey)
  }

  /** Validation comes out empty-handed exactly when the API rejected every candidate. */
  lemma {:induction false} FirstValidNone(candidates: seq<string>, validate: Validator)
    ensures FirstValid(candidates, validate) == Success(None) <==>
      forall k :: 0 <= k < |candidates| ==> Rejected(validate, candidates[k])
  {
    if candidates != [] {
      var rest := candidates[1..];
      FirstValidNone(rest, validate);
      if !Rejected(validate, candidates[0]) {
        assert FirstValid(candidates, validate) != Success(None);
      } else if forall k :: 0 <= k < |rest| ==> Rejected(validate, rest[k]) {
        forall k | 0 <= k < |candidates| ensures Rejected(validate, candidates[k]) {
          if k > 0 { assert candidates[k] == rest[k - 1]; }
        }
      } else {
        var j :| 0 <= j < |rest| && !Rejected(validate, rest[j]);
        assert candidates[j + 1] == rest[j];
      }
    }
  }

  /**
   * Otherwise validation stops at the first candidate not rejected, after every earlier one
   * was: with that candidate's key when the API accepted it, with the error when it threw.
   */
  lemma {:induction false} FirstValidStops(candidates: seq<string>, validate: Validator)
    requires FirstValid(candidates, validate) != Success(None)
    ensures
      exists i :: 0 <= i < |candidates| && !Rejected(validate, candidates[i]) &&
        (forall k :: 0 <= k < i ==> Rejected(validate, candidates[k])) &&
        FirstValid(candidates, validate) ==
          match validate(candidates[i])
          case Failure(e) => Failure(e)
          case Success(_) => Success(Some(candidates[i]))
  {
    if Rejected(validate, candidates[0]) {
      var rest := candidates[1..];
      FirstValidStops(rest, validate);
      var i :| 0 <= i < |rest| && !Rejected(validate, rest[i]) &&
        (forall k :: 0 <= k < i ==> Rejected(validate, rest[k])) &&
        FirstValid(rest, validate) ==
          match validate(rest[i])
          case Failure(e) => Failure(e)
          case Success(_) => Success(Some(rest[i]));
      assert FirstValid(candidates, validate) == FirstValid(rest, validate);
      assert candidates[i + 1] == rest[i];
      forall k | 0 <= k < i + 1 ensures Rejected(validate, candidates[k]) {
        if k > 0 { assert candidates[k] == rest[k - 1]; }
      }
    } else {
      assert FirstValid(candidates, validate) ==
        match validate(candidates[0])
        case Failure(e) => Failure(e)
        case Success(_) => Success(Some(candidates[0]));
    }
  }

  /** Every candidate a script contributes has the shape of a key. */
  lemma {:induction false} ScriptCandidatesShaped(scripts: seq<string>, fetch: Fetcher)
    ensures forall c :: c in ScriptCandidates(scripts, fetch) ==> CandidateShaped(c)
  {
    if scripts != [] {
      ScriptCandidatesShaped(scripts[1..], fetch);
      if fetch(scripts[0]).Success? {
        CandidatesFacts(fetch(scripts[0]).value);
      }
    }
  }

  /** Scripts that fail to fetch add nothing: with every script failing, the pool is the entry page's candidates. */
  lemma {:induction false} FailedScriptsAddNothing(html: string, scripts: seq<string>, fetch: Fetcher)
    requires forall k :: 0 <= k < |scripts| ==> fetch(scripts[k]).Failure?
    ensures ScriptCandidates(scripts, fetch) == []
    ensures CandidatePool(html, scripts, fetch) == Candidates(html)
  {
    if scripts != [] {
      FailedScriptsAddNothing(html, scripts[1..], fetch);
    }
  }

  /**
   * The pool holds each key once, starts with the entry page's candidates in their own order,
   * and holds exactly the entry page's and the fetched scripts' candidates, all key-shaped.
   */
  lemma CandidatePoolFacts(html: string, scripts: seq<string>, fetch: Fetcher)
    ensures NoDup(CandidatePool(html, scripts, fetch))
    ensures |Candidates(html)| <= |CandidatePool(html, scripts, fetch)|
    ensures CandidatePool(html, scripts, fetch)[..|Candidates(html)|] == Candidates(html)
    ensures forall c :: c in CandidatePool(html, scripts, fetch) <==> c in Candidates(html) || c in ScriptCandidates(scripts, fetch)
    ensures forall c :: c in CandidatePool(html, scripts, fetch) ==> CandidateShaped(c)
  {
    CandidatesFacts(html);
    ScriptCandidatesShaped(scripts, fetch);
    AddAllFacts(Candidates(html), ScriptCandidates(scripts, fetch));
  }

  /** Every member of the pool has the shape of a key. */
  lemma CandidatePoolShaped(html: string, scripts: seq<string>, fetch: Fetcher, c: string)
    requires c in CandidatePool(html, scripts, fetch)
    ensures CandidateShaped(c)
  {
    CandidatePoolFacts(html, scripts, fetch);
  }

  /** The key validation settles on is one of the candidates, and the API accepted it. */
  lemma {:induction false} FirstValidPicksAccepted(candidates: seq<string>, validate: Validator, key: string)
    requires FirstValid(candidates, validate) == Success(Some(key))
    ensures key in candidates && validate(key) == Success(true)
  {
    if validate(candidates[0]) != Success(true) {
      FirstValidPicksAccepted(candidates[1..], validate, key);
    }
  }

  /**
   * A discovered key was accepted by the API, comes from the entry page or one of its first 20
   * scripts, and has the shape of a key.
   */
  lemma DiscoveredKeyFacts(fetch: Fetcher, validate: Validator)
    requires Discover(fetch, validate).Success?
    ensures FirstOk(ENTRY_URLS, fetch).Success?
    ensures var key, html := Discover(fetch, validate).value, FirstOk(ENTRY_URLS, fetch).value.text;
      validate(key) == Success(true) && CandidateShaped(key) &&
      key in CandidatePool(html, TakeScripts(ScriptUrls(html)), fetch)
  {
    KeyFromPageFacts(FirstOk(ENTRY_URLS, fetch).value.text, fetch, validate);
  }

  /**
   * The entry page decides the outcome when it names the key: with at least one script URL on
   * the page, a key among the page's own candidates is found whatever the scripts hold, as
   * long as the validator accepts exactly that key.
   */
  lemma PageKeyDiscovered(fetch: Fetcher, validate: Validator, key: string)
    requires FirstOk(ENTRY_URLS, fetch).Success?
    requires key in Candidates(FirstOk(ENTRY_URLS, fetch).value.text)
    requires ScriptUrls(FirstOk(ENTRY_URLS, fetch).value.text) != []
    requires forall c :: validate(c) == Success(c == key)
    ensures Discover(fetch, validate) == Success(key)
  {
    var html := FirstOk(ENTRY_URLS, fetch).value.text;
    var scripts := TakeScripts(ScriptUrls(html));
    var pool := CandidatePool(html, scripts, fetch);
    CandidatePoolFacts(html, scripts, fetch);
    assert !Rejected(validate, key);
    FirstValidNone(pool, validate);
    FirstValidStops(pool, validate);
    var i :| 0 <= i < |pool| && !Rejected(validate, pool[i]) &&
      FirstValid(pool, validate) ==
        match validate(pool[i])
        case Failure(e) => Failure(e)
        case Success(_) => Success(Some(pool[i]));
    assert validate(pool[i]) == Success(pool[i] == key);
    assert FirstValid(pool, validate) == Success(Some(key));
  }

  lemma KeyFromPageFacts(html: string, fetch: Fetcher, validate: Validator)
    requires DiscoverIn(html, fetch, validate).Success?
    ensures var key := DiscoverIn(html, fetch, validate).value;
      validate(key) == Success(true) && CandidateShaped(key) &&
      key in CandidatePool(html, TakeScripts(ScriptUrls(html)), fetch)
  {
    var scripts := TakeScripts(ScriptUrls(html));
    var pool := CandidatePool(html, scripts, fetch);
    var key := DiscoverIn(html, fetch, validate).value;
    FirstValidPicksAccepted(pool, validate, key);
    CandidatePoolShaped(html, scripts, fetch, key);
  }

  /**
   * Discovery fails with "No scripts found..." exactly when the entry page fetches and lists no
   * usable script, whatever the validator says; an entry page that cannot be fetched is
   * reported with the last fetch error.
   */
  lemma DiscoverFailures(fetch: Fetcher, validate: Validator)
    ensures Discover(fetch, validate) == Failure(NoScripts) <==>
      FirstOk(ENTRY_URLS, fetch).Success? && ScriptUrls(FirstOk(ENTRY_URLS, fetch).value.text) == []
    ensures FirstOk(ENTRY_URLS, fetch).Failure? ==>
      Discover(fetch, validate) == Failure(EntryFetchFailed(FirstOk(ENTRY_URLS, fetch).error))
  {
  }

  /**
   * The script loop of `extractApiKey`: fetch each script in order, skip the ones that fail,
   * and add the candidates of the others to the set.
   */
  method ScanScripts(candidates: seq<string>, scripts: seq<string>, fetch: Fetcher)
    returns (pool: seq<string>, ghost fetched: seq<string>)
    ensures pool == AddAll(candidates, ScriptCandidates(scripts, fetch))
    ensures fetched == scripts
  {
    pool := candidates;
    fetched := [];
    var i := 0;
    while i < |scripts|
      invariant i <= |scripts| && fetched == scripts[..i]
      invariant pool == AddAll(candidates, ScriptCandidates(scripts[..i], fetch))
    {
      ghost var before, finds := ScriptCandidates(scripts[..i], fetch), ScriptFinds(fetch)(scripts[i]);
      ScriptCandidatesSnoc(scripts, i, fetch);
      AddAllAppend(candidates, before, finds);
      assert scripts[..i + 1] == fetched + [scripts[i]];
      fetched := fetched + [scripts[i]];
      pool := ScanScript(pool, scripts[i], fetch);
      assert pool == AddAll(candidates, before + finds);
      i := i + 1;
    }
    assert scripts[..i] == scripts;
  }

  /** One turn of the script loop: a script that fetches adds its candidates, one that fails is skipped. */
  method ScanScript(pool: seq<string>, url: string, fetch: Fetcher) returns (next: seq<string>)
    ensures next == AddAll(pool, ScriptFinds(fetch)(url))
  {
    var outcome := fetch(url);
    if outcome.Success? {
      var found := FindCandidates(outcome.value);
      next := AddEach(pool, found);
    } else {
      next := pool;
    }
  }

  /** A candidate the API rejected: `validateKey` resolved to `false`. */
  predicate Rejected(validate: Validator, key: string) {
    validate(key) == Success(false)
  }

  /**
   * What the validation log of one discovery records: an accepted key is the last entry and
   * the validator accepted it, every entry before the last was rejected, all entries were
   * rejected when no key was found, and a validation that failed is the last entry.
   */
  predicate ValidationLog(r: Result<string, DiscoveryError>, validated: seq<string>, validate: Validator) {
    (r.Success? ==> validate(r.value) == Success(true) && validated != [] && validated[|validated| - 1] == r.value) &&
    (forall k :: 0 <= k < |validated| - 1 ==> Rejected(validate, validated[k])) &&
    (r == Failure(NoValidKey) ==> forall k :: 0 <= k < |validated| ==> Rejected(validate, validated[k])) &&
    (r.Failure? && r.error.ValidationFailed? ==>
      validated != [] && validate(validated[|validated| - 1]) == Failure(r.error.message))
  }

  /**
   * The validation loop of `extractApiKey`: validate candidates in set order and stop at the
   * first one accepted or at the first validation that throws; every key validated before
   * that one was rejected.
   */
  method FirstAccepted(candidates: seq<string>, validate: Validator)
    returns (r: Result<Option<string>, string>, ghost validated: seq<string>)
    ensures r == FirstValid(candidates, validate)
    ensures validated <= candidates
    ensures forall k :: 0 <= k < |validated| - 1 ==> Rejected(validate, validated[k])
    ensures r == Success(None) ==> validated == candidates
    ensures r == Success(None) ==> forall k :: 0 <= k < |validated| ==> Rejected(validate, validated[k])
    ensures r.Success? && r.value.Some? ==>
      validated != [] && validated[|validated| - 1] == r.value.value && validate(r.value.value) == Success(true)
    ensures r.Failure? ==> validated != [] && validate(validated[|validated| - 1]) == Failure(r.error)
  {
    validated := [];
    var j := 0;
    while j < |candidates|
      invariant j <= |candidates| && validated == candidates[..j]
      invariant forall k :: 0 <= k < j ==> Rejected(validate, candidates[k])
      invariant FirstValid(candidates, validate) == FirstValid(candidates[j..], validate)
    {
      assert candidates[j..][0] == candidates[j] && candidates[j..][1..] == candidates[j + 1..];
      validated := validated + [candidates[j]];
      var outcome := validate(candidates[j]);
      if outcome.Failure? {
        r := Failure(outcome.error);
        return;
      }
      if outcome.value {
        r := Success(Some(candidates[j]));
        return;
      }
      j := j + 1;
    }
    r := Success(None);
  }

  /**
   * `extractApiKey`: the entry page, its candidates, at most 20 of its scripts (a script that
   * fails to fetch is skipped), then validation in insertion order until the first key is
   * accepted.
   */
  method ExtractApiKey(fetch: Fetcher, validate: Validator)
    returns (r: Result<string, DiscoveryError>, ghost fetched: seq<string>, ghost validated: seq<string>)
    ensures r == Discover(fetch, validate)
    ensures ValidationLog(r, validated, validate)
    ensures r.Failure? && (r.error.EntryFetchFailed? || r.error.NoScripts?) ==> validated == []
    ensures r.Failure? && r.error.EntryFetchFailed? ==> fetched == ENTRY_URLS
    ensures FirstOk(ENTRY_URLS, fetch).Success? ==>
      var html := FirstOk(ENTRY_URLS, fetch).value.text;
      fetched == Attempts(ENTRY_URLS, fetch) + TakeScripts(ScriptUrls(html)) &&
      validated <= CandidatePool(html, TakeScripts(ScriptUrls(html)), fetch)
    ensures |fetched| <= |ENTRY_URLS| + MAX_SCRIPTS
  {
    validated := [];
    var entry, entryAttempts := FetchFirstOk(ENTRY_URLS, fetch);
    AttemptsFacts(ENTRY_URLS, fetch);
    fetched := entryAttempts;
    if entry.Failure? {
      r := Failure(EntryFetchFailed(entry.error));
      return;
    }
    ghost var scanned;
    r, scanned, validated := KeyFromPage(entry.value.text, fetch, validate);
    fetched := fetched + scanned;
  }

  /**
   * `extractApiKey` after the entry page: its candidates, at most 20 of its scripts fetched in
   * order (one that fails is skipped), then validation in insertion order.
   */
  method KeyFromPage(html: string, fetch: Fetcher, validate: Validator)
    returns (r: Result<string, DiscoveryError>, ghost fetched: seq<string>, ghost validated: seq<string>)
    ensures r == DiscoverIn(html, fetch, validate)
    ensures fetched == TakeScripts(ScriptUrls(html))
    ensures validated <= CandidatePool(html, TakeScripts(ScriptUrls(html)), fetch)
    ensures ValidationLog(r, validated, validate)
    ensures r == Failure(NoScripts) ==> validated == []
  {
    validated := [];
    var candidates := FindCandidates(html);

    var allScripts := ExtractScriptUrls(html);
    var scripts := TakeScripts(allScripts);
    fetched := [];
    if |scripts| == 0 {
      r := Failure(NoScripts);
      return;
    }

    var pool;
    pool, fetched := ScanScripts(candidates, scripts, fetch);
    assert pool == CandidatePool(html, scripts, fetch);

    r, validated := Decide(pool, validate);
  }

  /** The validation stage of `extractApiKey`: try the pool in order and turn the outcome into a verdict. */
  method Decide(pool: seq<string>, validate: Validator)
    returns (r: Result<string, DiscoveryError>, ghost validated: seq<string>)
    ensures r == Verdict(FirstValid(pool, validate))
    ensures validated <= pool
    ensures ValidationLog(r, validated, validate)
  {
    var found;
    found, validated := FirstAccepted(pool, validate);
    r := Verdict(found);
  }
}
