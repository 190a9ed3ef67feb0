# marktguru-cli core, modelled in Dafny

marktguru-cli is a command-line client for the Marktguru offer catalogue. This project models
the four parts of it that carry logic of their own:

- **API-key discovery** (`src/auth.ts`, module `Auth`). The command fetches the first entry page
  of the web site that answers. It collects the script URLs the page loads, keeping at most 20 of
  them. It harvests key-shaped strings from the page and from every script it can fetch. Then it
  asks the catalogue API about each harvested string in first-seen order and returns the first one
  the API accepts. The three regular expressions used for harvesting, and the one used to find
  script tags, are written out as explicit scanners with JavaScript's leftmost-match `exec`
  semantics (module `Patterns`). A JavaScript `Set` is an insertion-ordered sequence without
  duplicates (module `InsertionSet`).
- **The `login` command** (`src/commands/login.ts`, module `Login`). It runs the same discovery,
  saves the first accepted key, prints a 15-character preview of it, and exits with 1 on any
  failure.
- **Query building** (`src/query.ts`, module `Query`). This covers the quoting and escaping of
  terms, the four normalisers, and `buildQuery`, which assembles the query parts and wildcard
  warnings, or fails when nothing is left.
- **The search command's own logic** (`src/commands/search.ts`, module `Search`). This covers:
  - `simplifyOffer`;
  - the limit check;
  - the client-side retailer filter with its fetch limit, slice and total;
  - the text rendering of one offer and of a whole result page.

The network, the configuration file, floating-point formatting and the clock are parameters.
`fetch` and `validate` are functions from a URL or key to a result. The save of the
configuration returns an optional error message. `Env` holds the price, percentage, date and
validity renderers. Ghost logs record which URLs were fetched, which keys were validated and
which key was saved, in order.

Every loop of the source is a method proved against a function. The function's properties are
then proved as lemmas. For example, `ExtractApiKey`'s result is `Discover(fetch, validate)`,
and the lemmas about `Discover` say what a discovered key is and when each error arises.

Files: `wrappers.dfy`, `sequences.dfy`, `strings.dfy`, `ordered_set.dfy`, `patterns.dfy`,
`auth.dfy`, `login.dfy`, `query.dfy`, `search.dfy`.

## Model

| member | source | states |
|---|---|---|
| Auth.NormalizeSrc | src/auth.ts:63-66 | A `src` is kept exactly when it starts with `/` or `http`. `//x` becomes `https://x`. `/x` becomes the site origin plus `/x`. An `http…` value is kept unchanged. Every kept URL starts with `http`. |
| Auth.KeptSourcesMembership | src/auth.ts:62-67 | A URL is kept from the script-tag matches exactly when some matched `src` normalises to it, and every kept URL starts with `http`. |
| Auth.KeptSourcesAppend | src/auth.ts:62-67 | Sources are normalised one by one: the URLs kept from two runs of matches are those of the first run, then those of the second. |
| Auth.ScriptUrlsFacts | src/auth.ts:58-69 | The script URL list has no duplicates. Its members are exactly the kept `src` values, in the order each first occurs, and all start with `http`. |
| Auth.ScriptSrcKept | src/auth.ts:60-67 | The `src` of a script tag laid out at a position, when it starts with `/` or `http`, is among the script URLs in normalised form, provided no earlier script-tag match runs past that position. |
| Auth.ExtractScriptUrls | src/auth.ts:58-69 | The scanning loop returns exactly `ScriptUrls(html)`: duplicate-free and `http`-prefixed. |
| Auth.HarvestMembership | src/auth.ts:71-91 | A string is harvested exactly when it is an `x-apikey` match, an `apiKey` match, or a base64 match of 40-60 characters that contains `=`. |
| Auth.PaddedTokenKept | src/auth.ts:85-91 | A run of 40-80 base64 characters with one or two `=` after it, 60 characters at most in all, is a candidate. The run must start the text or follow a non-base64 character, and must end where the characters stop being base64 (or after 80) and the `=` stop (or after 2). |
| Auth.HeaderKeyKept | src/auth.ts:74-78 | A quoted `x-apikey` value laid out at a position is a candidate when no earlier `x-apikey` match runs past that position. |
| Auth.ApiKeyKept | src/auth.ts:80-83 | A quoted `apiKey` value laid out at a position is a candidate when no earlier `apiKey` match runs past that position. |
| Auth.ApiKeyExample | src/auth.ts:80-83 | A text `apiKey: "…"` with at least 10 quote-free characters between the quotes, such as `apiKey: "abcdef0123456789"`, yields those characters as a candidate. |
| Auth.CandidatesFacts | src/auth.ts:71-93 | The candidates have no duplicates. They are exactly the header-key, `apiKey` and base64 matches, in first-occurrence order across the three passes, and each has the shape its pattern demands. |
| Auth.HarvestShaped | src/auth.ts:74-91 | Every harvested string is either a quote-free quoted value of at least 10 characters, or a 40-60 character base64 run containing `=`. |
| Auth.AddMatches | src/auth.ts:76-83 | One global `exec` loop adds every match of the pattern, in order, to the set. |
| Auth.FindCandidates | src/auth.ts:71-93 | The three `exec` loops over one insertion-ordered set return exactly `Candidates(text)`. |
| Auth.FirstOkMeaning | src/auth.ts:44-56 | The result is a page exactly when some URL fetches. In that case it is the first URL that fetches, and every earlier URL failed. With no URLs the error is "No URLs to fetch.". Otherwise the error is the last URL's error. |
| Auth.AttemptsFacts | src/auth.ts:44-56 | `fetchFirstOk` tries a prefix of the URLs. Every URL before the last one tried failed. On success the last URL tried is the one returned. On failure every URL was tried. |
| Auth.FetchFirstOk | src/auth.ts:44-56 | The loop yields `FirstOk(urls, fetch)`, and the URLs it fetched, in order, are `Attempts(urls, fetch)`. |
| Auth.TakeScripts | src/auth.ts:132 | `slice(0, 20)`: a prefix of the list, of length `min(length, 20)`. |
| Auth.ScriptCandidatesAppend | src/auth.ts:138-147 | Scanning two script lists one after the other yields the concatenation of their findings. |
| Auth.ScriptCandidatesSnoc | src/auth.ts:138-147 | Scanning one more script adds that script's findings at the end. A script whose fetch fails adds nothing. |
| Auth.ScriptCandidatesShaped | src/auth.ts:138-147 | Everything found in scripts has a candidate's shape. |
| Auth.FailedScriptsAddNothing | src/auth.ts:144-146 | When every script fetch fails, the scripts contribute nothing and the pool is the entry page's candidates. |
| Auth.ScanScript | src/auth.ts:139-146 | One script adds its candidates to the pool in order when its fetch succeeds. When the fetch fails, the pool is unchanged. |
| Auth.ScanScripts | src/auth.ts:138-147 | The loop over the scripts fetches each script once, in order, and leaves the pool as the page candidates followed by every script's new candidates. |
| Auth.CandidatePoolFacts | src/auth.ts:130-147 | The pool has no duplicates, starts with the page's candidates, and contains exactly the page's and the scripts' candidates. Every member has a candidate's shape. |
| Auth.FirstValidNone | src/auth.ts:149-155 | No key is found exactly when the API rejects every candidate. |
| Auth.FirstValidStops | src/auth.ts:149-153 | Otherwise validation stops at the first candidate that is not rejected. It returns that key if the API accepts it, or the error its validation threw. |
| Auth.FirstValidPicksAccepted | src/auth.ts:149-153 | A returned key is a candidate that the API accepted. |
| Auth.FirstAccepted | src/auth.ts:149-155 | The validation loop yields `FirstValid`. It validates a prefix of the candidates, and every one before the last was rejected. On no key it validated all of them. On an error the last one validated threw it. |
| Auth.Verdict | src/auth.ts:149-155 | Discovery succeeds exactly when validation found a key, and the key returned is that key. |
| Auth.Decide | src/auth.ts:149-155 | Validating the pool yields the verdict on `FirstValid`. The validation log is a prefix of the pool: an accepted key comes last, every earlier key was rejected, all were rejected on "no valid key", and a thrown validation comes last. |
| Auth.CandidatePoolShaped | src/auth.ts:130-147 | Every member of the candidate pool has a candidate's shape. |
| Auth.DiscoverFailures | src/auth.ts:127-135 | "No scripts found" arises exactly when the entry page has no script URL. A failed entry fetch rethrows the entry error. |
| Auth.PageKeyDiscovered | src/auth.ts:114-156 | When the entry page fetches, has at least one script URL and names the key among its own candidates, and the API accepts exactly that key, discovery returns that key, whatever the scripts hold. |
| Auth.DiscoveredKeyFacts | src/auth.ts:114-156 | A discovered key implies that an entry page was fetched. The key was accepted by the API, has a candidate's shape, and is in the pool built from that page. |
| Auth.KeyFromPageFacts | src/auth.ts:130-155 | A key found from an entry page was accepted by the API, has a candidate's shape, and is in the pool built from that page and its first 20 scripts. |
| Auth.KeyFromPage | src/auth.ts:130-155 | After the entry page, the method yields `DiscoverIn`. It fetches exactly the first 20 script URLs in order, and validates a prefix of the pool with the log described for `Decide`. Nothing is validated when no script URL is found. |
| Auth.ExtractApiKey | src/auth.ts:114-156 | The whole method yields `Discover(fetch, validate)`. A returned key is the last one validated and was accepted. The keys validated before it were rejected, and all were rejected on "no valid key". Nothing is validated when the entry fetch fails or no script URL is found. When an entry page is fetched, the URLs fetched are the entry attempts followed by the first 20 script URLs, and the keys validated are a prefix of the pool. When none is, all five entry URLs were tried. |
| Login.LoginOutcomeFacts | src/commands/login.ts:133-193 | Login succeeds exactly when discovery finds a key and saving it succeeds. A reported key was accepted and has a key's shape. A failure carries no key and carries a message, which is the fixed one when no key was valid. |
| Login.RunLogin | src/commands/login.ts:139-192 | The command yields `LoginOutcome`. It saves exactly the discovered key, once, and saves nothing when discovery fails. |
| Login.KeyPreview | src/commands/login.ts:23 | The preview is the first `min(15, length)` characters of the key followed by `...`. |
| Login.PreviewHidesRest | src/commands/login.ts:23 | Keys that agree on their first 15 characters print the same preview. |
| Login.Output | src/commands/login.ts:18-27 | Success prints two lines on standard output: the saved message, then the key preview. Failure prints one line on standard error with the message. |
| Login.ExitCode | src/commands/login.ts:181-192 | The exit code is 0 exactly on success. |
| Login.OutcomeOutput | src/commands/login.ts:176-191 | Every outcome `login` produces can be printed. It prints to standard output exactly when it exits with 0. |
| Query.EscapeQuotes | src/query.ts:33-35 | Escaping never shortens a value, and is empty only for an empty value. |
| Query.UnescapeEscape | src/query.ts:33-35 | Escaping is reversible: un-escaping the escaped value gives the value back. |
| Query.EscapeNothing | src/query.ts:31-35 | A value without `"` or `\` is unchanged by escaping. |
| Query.Quote | src/query.ts:37-39 | A quoted value starts and ends with `"`. |
| Query.UnquoteQuote | src/query.ts:37-39 | Quoting is reversible: the original value is recovered from the quoted one. |
| Query.NormalizeTerm | src/query.ts:41-48 | A term is dropped exactly when it trims to nothing. A kept term is a non-empty token with no whitespace at either end. |
| Query.NormalizeTermMeaning | src/query.ts:41-48 | A term is dropped exactly when it is all whitespace. Without inner whitespace the token is the trimmed term. With inner whitespace the token is the quoted trimmed term. |
| Query.NormalizePhrase | src/query.ts:50-54 | A phrase is dropped exactly when it trims to nothing. A kept phrase is a non-empty, trimmed token. |
| Query.NormalizePhraseMeaning | src/query.ts:50-54 | A kept phrase is always the quoted trimmed phrase. |
| Query.NormalizeWildcard | src/query.ts:56-66 | A wildcard is dropped exactly when it trims to nothing. A warning always comes with a token and is the fixed warning text. |
| Query.NormalizeWildcardMeaning | src/query.ts:56-66 | A warning is given exactly when the trimmed wildcard contains whitespace. The token is then the quoted trimmed value; otherwise it is the trimmed value. |
| Query.NormalizeGroup | src/query.ts:68-72 | A group is dropped exactly when it trims to nothing. A kept group is a non-empty, trimmed token. |
| Query.NormalizeGroupMeaning | src/query.ts:68-72 | A kept group is the trimmed group in parentheses. |
| Query.TokensEmpty | src/query.ts:78-106 | A list contributes no part exactly when every entry is all whitespace. |
| Query.WildcardTokensEmpty | src/query.ts:88-92 | The wildcard list contributes no part exactly when every wildcard is all whitespace. |
| Query.WarningsFacts | src/query.ts:88-92 | One warning is produced per wildcard that had to be quoted, never more than there are wildcards, and each is the fixed text. |
| Query.OrGroupPresent | src/query.ts:94-101 | If any OR-term is non-blank, the parenthesised ` OR ` group is one of the parts. If none is, the parts are those of the other four lists. |
| Query.PartsGood | src/query.ts:75-106 | Every query part is non-empty and has no whitespace at either end. |
| Query.JoinGood | src/query.ts:108 | Such parts joined by single spaces give an empty string only when there are no parts, and need no trimming. |
| Query.BuildOutcomeFacts | src/query.ts:108-115 | `buildQuery` fails exactly when no part survives normalisation, with the fixed message. On success the query is the parts joined by single spaces. |
| Query.BuildFailsIffBlank | src/query.ts:74-115 | `buildQuery` fails exactly when every entry of all five lists is all whitespace, with absent lists counting as empty. |
| Query.EmptyInputExample | tests/query.test.js:30-32 | An input with no lists fails with "No query parts provided…". |
| Query.BuildQuery | src/query.ts:74-116 | The five loops and the final join yield `BuildOutcome(input)`. |
| Search.TitleParts | src/commands/search.ts:24-28 | The title parts are `[brand, product name, description]` filtered to the non-empty ones, in that order: at most three, none empty. |
| Search.TitleFacts | src/commands/search.ts:24-29 | The title is empty exactly when all three parts are empty. Without brand and description the title is the product name. |
| Search.RetailerName | src/commands/search.ts:45 | The retailer is the first advertiser's name when that is non-empty, and "Unknown" otherwise. It is never empty. |
| Search.Expires | src/commands/search.ts:38-40 | The expiry is the ISO day of the first validity date's `to` when that is set, and empty when there is no first date or its `to` is empty. |
| Search.SimplifyOffer | src/commands/search.ts:22-50 | The title is the parts joined by ` - `. The price is copied. The retailer is `RetailerName` of the advertisers, never empty. The expiry is `Expires` of the validity dates. A discount is present exactly when the old price is set, non-zero and above the price, and is then the rounded percentage. The external URL is passed through. |
| Search.NormalizeLimit | src/commands/search.ts:141-147 | An absent limit is 10. A non-finite or non-positive limit fails with the fixed message. Otherwise the result is the floor of the limit. |
| Search.WholeLimitKept | src/commands/search.ts:141-147 | A positive whole limit is kept as is. |
| Search.FetchLimit | src/commands/search.ts:172 | With a retailer filter, at least 100 offers are requested (`max(limit, 100)`). Without one, exactly the limit is requested. |
| Search.FilterMembership | src/commands/search.ts:186-190 | The filter keeps exactly the offers with an advertiser whose lower-cased name contains the needle (the lower-cased retailer), and never grows the list. |
| Search.FilterAppend | src/commands/search.ts:186-190 | The filter works offer by offer and keeps their order: filtering a concatenation is concatenating the filtered halves. |
| Search.Take | src/commands/search.ts:191 | `slice(0, n)`: a prefix of length `min(n, length)`. |
| Search.ShapeResults | src/commands/search.ts:181-195 | At most `limit` offers are shown. With a filter they are the first `limit` matching offers and the total is their count. Without a filter they are the first `limit` results and the total is the API's. |
| Search.FilteredFacts | src/commands/search.ts:184-192 | Every offer shown under a filter is a matching result. When fewer than `limit` are shown, every matching result is shown. |
| Search.FormatDiscount | src/api.ts:95-99 | A discount text is produced exactly when the old price is set, non-zero and above the price. |
| Search.DiscountShape | src/commands/search.ts:84-86 | The discount text is `-`, then the same rounded percentage `simplifyOffer` reports, then `%`. |
| Search.NameLineFacts | src/commands/search.ts:80-81 | With a brand, the name line ends in `[brand]`. Without one, it is the trimmed product name. |
| Search.OfferLines | src/commands/search.ts:76-111 | An offer renders as 3 to 5 lines, the name line first and the price line second. |
| Search.OfferLinesFacts | src/commands/search.ts:97-109 | A description adds one line, in third place. An external URL adds one line, in last place, with the URL. Without a URL the retailer line comes last. |
| Search.OfferTextShape | src/commands/search.ts:76-112 | The offer text is the name, price, optional description, retailer and optional link lines, separated by newlines. |
| Search.FormatOfferText | src/commands/search.ts:76-112 | Pushing the lines and joining them yields `OfferText`. |
| Search.OfferTextShowsLink | src/commands/search.ts:107-109 | An offer with an external URL shows that URL in its text. |
| Search.RetailerEntries | src/commands/search.ts:131-134 | One `name (count)` entry per retailer, in order. |
| Search.SummaryFacts | src/commands/search.ts:130-136 | The summary names at most 5 retailers, the first ones in order. |
| Search.ResultLinesFacts | src/commands/search.ts:114-139 | No results give the header and "No offers found.". Otherwise the header is followed by each offer's text and a blank line, in order, and the retailer summary comes last when there are retailers. |
| Search.PushOfferBlocks | src/commands/search.ts:124-127 | The loop appends each offer's text and a blank line, in order. |
| Search.FormatResultsText | src/commands/search.ts:114-139 | The whole method yields the result lines joined by newlines. |
| Search.ResultsTextShowsLinks | src/commands/search.ts:114-139 | Every result with an external URL shows that URL in the page text. |
| InsertionSet.AddEach | src/auth.ts:141-143 | Adding each element to an insertion-ordered set in a loop is `AddAll`. |
| InsertionSet.AddAllFacts | src/auth.ts:141-143 | Adding to a duplicate-free set keeps it duplicate-free, keeps the old elements first, and adds exactly the new ones. |
| InsertionSet.DedupFacts | src/auth.ts:68 | `[...new Set(xs)]` has no duplicates, the same members as `xs`, and follows the order of first occurrence. |
| Strings.TrimFacts | src/query.ts:42 | `trim` removes a whitespace prefix and a whitespace suffix. It yields the empty string exactly for all-whitespace input, and otherwise starts and ends with a kept character. |
| Strings.TrimKeepsEnd | src/commands/search.ts:81 | Trimming a string that ends in a kept character leaves every suffix that starts at a kept character intact. |
| Strings.TrimTrailingSpace | src/commands/search.ts:81 | A trailing space makes no difference to `trim`. |
| Sequences.KeepMembership | src/commands/search.ts:186 | `filter` keeps exactly the elements satisfying the predicate, and never grows the list. |
| Patterns.AllMatches | src/auth.ts:60-62 | Every match the global `exec` loop yields has the shape its pattern demands. |
| Patterns.ExecNone | src/auth.ts:60-62 | `exec` from a position finds nothing exactly when the pattern matches at no position from there to the end of the text. |
| Patterns.ExecLeftmost | src/auth.ts:60-62 | A match `exec` returns is the pattern's match at some position from the start point, and the pattern matches at no earlier position. |
| Patterns.AllMatchesReaches | src/auth.ts:85-86 | The global `exec` loop reports the match at a position when no match starting earlier runs past that position. |
| Patterns.Base64AtRun | src/auth.ts:85 | At a maximal run of 40-80 base64 characters followed by at most two maximal `=`, the greedy base64 pattern matches exactly that run and its padding. |
| Patterns.PaddedRunFound | src/auth.ts:85-86 | Such a run that starts the text or follows a non-base64 character is one of the matches of the global loop. |
| Patterns.QuotedAt | src/auth.ts:74-80 | `['"]([^'"]{min,})['"]`: a match starts at a quote, ends just after the next quote, and captures the quote-free text between the two, of at least `min` characters. |
| Patterns.QuotedAtFinds | src/auth.ts:74-80 | A quote, at least `min` quote-free characters and a quote are matched, capturing exactly the text between the quotes. |
| Patterns.AssignedValueAt | src/auth.ts:74-80 | `\s*[:=]\s*['"]([^'"]{10,})['"]`, the tail both key patterns share: a match captures a quote-free text of at least 10 characters that is followed by a quote ending the match. |
| Patterns.AssignedValueAtFinds | src/auth.ts:74-80 | Whitespace, `:` or `=`, whitespace and a quoted run of at least 10 quote-free characters: the tail matches and captures the text between the quotes. |
| Patterns.ApiKeyAt | src/auth.ts:80 | A match begins with `apikey` in any letter case, and captures a quote-free text of at least 10 characters that is followed by a quote ending the match. |
| Patterns.ApiKeyAtFinds | src/auth.ts:80 | `apiKey` in any case, optional whitespace, `:` or `=`, optional whitespace and a quoted run of at least 10 quote-free characters: the scan matches and captures the text between the quotes. |
| Patterns.HeaderKeyAt | src/auth.ts:74 | A match begins with `x-apikey` in any letter case, and captures a quote-free text of at least 10 characters that is followed by a quote ending the match. |
| Patterns.HeaderKeyAtFinds | src/auth.ts:74 | `x-apikey` in any case, whitespace, an optional quote, whitespace, `:` or `=`, whitespace and a quoted run of at least 10 quote-free characters: the scan matches, with or without the optional quote, and captures the text between the quotes. |
| Patterns.SrcRightmost | src/auth.ts:60 | A `src=` value found in the tag's span is a non-empty quote-free text, and the match ends inside the text. |
| Patterns.SrcRightmostFinds | src/auth.ts:60 | The greedy `[^>]+` takes the rightmost `src=` in the span whose quoted value and closing `>` match. |
| Patterns.ScriptTagAt | src/auth.ts:60 | A script-tag match captures a non-empty quote-free `src` value and ends inside the text. |
| Patterns.ScriptTagAtFinds | src/auth.ts:60 | `<script` in any case, at least one character and no `>` up to `src=`, a quoted non-empty value, then the first `>`, with no later `src=` before it: the scan matches, captures the value and ends after that `>`. |

## Left out

- The network is not modelled. `fetchText` and `validateKey` are the `Fetcher` and `Validator` parameters, and they cover HTTP status, the 15-second abort and the request headers.
- `maybeGetHeaders` is left out. It affects only the request headers, so no outcome modelled here depends on it.
- The configuration file is not modelled. `saveConfig` is the `Saver` parameter and `getConfig` is not part of this model.
- `src/cli.ts`, `ensureApiKey`, `apiSearch`, `emitWarnings`, `QUERY_SYNTAX_HELP` and the `search` and `search build` command bodies are left out. They only read options, wire the modelled pieces together and print.
- The `--json` output of `login` and `search` is left out: `JSON.stringify` is not modelled.
- The progress messages passed to the `log` callback are left out.
- `process.exit` is represented only by `Login.ExitCode`.
- The copies of `fetchFirstOk`, `extractScriptUrls`, `findCandidates` and `validateKey` in `src/commands/login.ts` are not modelled separately. They are identical to those in `src/auth.ts`, so `Login` uses the `Auth` members.
- Floating-point arithmetic is abstracted. `toFixed`, `Math.round` of the discount ratio, `toISOString` and `formatValidity`'s day count are functions in `Env`. Prices and limits are reals, with non-finite limits as a separate case.
- Search.Header, Search.RetailerEntry: `totalResults` and `resultsCount` are JSON numbers printed by template literals (src/commands/search.ts:117, 133). The model holds them as unbounded integers printed in decimal. JavaScript's number printing is not modelled: values of 10^21 and above print in exponent form (`1e+21`), integers above 2^53 are not exact, and a non-integer count prints with its fraction.
- NaN and infinite prices are not modelled. An invalid date, on which `toISOString` throws, is not modelled either.
- Strings are sequences of characters, while JavaScript measures strings in UTF-16 code units. The lengths the model checks count characters, so they agree with the source only when no character lies outside the Basic Multilingual Plane. The places where this matters:
- Patterns.QuotedAt: the `{10,}` minimum of the quoted-key patterns counts characters. A value of 9 characters, one of them outside the Basic Multilingual Plane, is 10 code units long: `[^'"]{10,}` accepts it and the model does not.
- The `{40,80}` base64 bounds and the 40-60 length filter need no such caveat. A base64 run and its `=` padding are ASCII, one code unit per character.
- Login.KeyPreview: `substring(0, 15)` counts code units, so a key with a surrogate pair in its first 15 code units previews differently.
- `toLowerCase` is modelled for ASCII letters only. Other characters are left unchanged, unlike full Unicode case mapping.
- `externalUrl: null` and an absent `externalUrl` are both `None`. Every use of the field treats them alike.
- In `fetchFirstOk`, a thrown value that is falsy is not modelled: `fetchText` only throws `Error` objects, which are truthy.
- Query.OrGroupPresent: when some OR-term is non-blank, it states that the group is among the parts, not its exact position. The exact position is fixed by the definition of `Parts`, which `BuildQuery` is proved against.
