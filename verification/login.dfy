/**
 * The `login` command: discover an API key exactly as `extractApiKey` does, save the first
 * key the API accepts to the configuration file, and report the outcome.
 *
 * `login.ts` carries its own copies of the fetching, scanning and validation helpers; they are
 * the same code as in `auth.ts`, so the command is modelled on top of the `Auth` members. The
 * only step it adds is the save, which happens right after the first accepted key and ends the
 * validation loop, so saving after discovery has finished is the same behaviour.
 */
module Login {
  import opened Wrappers
  import opened Auth

  const PREVIEW_LENGTH: nat := 15
  const SAVED_MESSAGE: string := "\n✓ API key extracted and saved!"

  /** `saveConfig({ apiKey })`: resolves (`None`) or rejects with the message of a file-system error. */
  type Saver = string -> Option<string>

  /** `LoginResult`: `apiKey` is set on success, `error` on failure. */
  datatype LoginResult = LoginResult(success: bool, apiKey: Option<string>, error: Option<string>)

  /** One line written by `console.log` (standard output) or `console.error` (standard error). */
  datatype Line = Stdout(text: string) | Stderr(text: string)

  /** The result `login` reports: any error thrown on the way becomes `error` with its message. */
  function LoginOutcome(fetch: Fetcher, validate: Validator, save: Saver): LoginResult {
    match Discover(fetch, validate)
    case Failure(e) => LoginResult(false, None, Some(e.Message()))
    case Success(key) =>
      match save(key)
      case None => LoginResult(true, Some(key), None)
      case Some(message) => LoginResult(false, None, Some(message))
  }

  /**
   * Login succeeds exactly when a key is discovered and saving it succeeds; the reported key
   * was accepted by the API and has the shape of a key; a failure always carries a message,
   * and the no-valid-key case carries the fixed one.
   */
  lemma LoginOutcomeFacts(fetch: Fetcher, validate: Validator, save: Saver)
    ensures var r := LoginOutcome(fetch, validate, save);
      r.success <==> Discover(fetch, validate).Success? && save(Discover(fetch, validate).value).None?
    ensures var r := LoginOutcome(fetch, validate, save);
      r.success ==> (r.apiKey.Some? && r.error.None? &&
        validate(r.apiKey.value) == Success(true) && CandidateShaped(r.apiKey.value))
    ensures var r := LoginOutcome(fetch, validate, save);
      !r.success ==> r.apiKey.None? && r.error.Some?
    ensures Discover(fetch, validate) == Failure(NoValidKey) ==>
      LoginOutcome(fetch, validate, save).error == Some(NO_VALID_KEY_MESSAGE)
  {
    if Discover(fetch, validate).Success? {
      DiscoverFailures(fetch, validate);
      DiscoveredKeyFacts(fetch, validate);
    }
  }

  /**
   * `login`: run discovery; on the first accepted key save it and report success, otherwise
   * report the error. `saved` records every key handed to `saveConfig`.
   */
  method RunLogin(fetch: Fetcher, validate: Validator, save: Saver) returns (result: LoginResult, ghost saved: seq<string>)
    ensures result == LoginOutcome(fetch, validate, save)
    ensures Discover(fetch, validate).Success? ==> saved == [Discover(fetch, validate).value]
    ensures Discover(fetch, validate).Failure? ==> saved == []
  {
    saved := [];
    var found;
    ghost var fetched, validated;
    found, fetched, validated := ExtractApiKey(fetch, validate);
    if found.Failure? {
      result := LoginResult(false, None, Some(found.error.Message()));
      return;
    }
    saved := [found.value];
    var saveError := save(found.value);
    if saveError.Some? {
      result := LoginResult(false, None, Some(saveError.value));
      return;
    }
    result := LoginResult(true, Some(found.value), None);
  }

  /** `apiKey.substring(0, 15) + "..."`: at most the first 15 characters of the key, then an ellipsis. */
  function KeyPreview(key: string): (r: string)
    ensures |r| == (if |key| < PREVIEW_LENGTH then |key| else PREVIEW_LENGTH) + 3
    ensures forall k :: 0 <= k < |r| - 3 ==> r[k] == key[k]
    ensures forall k :: |r| - 3 <= k < |r| ==> r[k] == '.'
  {
    var shown := if |key| < PREVIEW_LENGTH then |key| else PREVIEW_LENGTH;
    key[..shown] + "..."
  }

  /** The preview shows nothing past the fifteenth character: keys that agree that far print alike. */
  lemma PreviewHidesRest(a: string, b: string)
    requires |a| >= PREVIEW_LENGTH && |b| >= PREVIEW_LENGTH && a[..PREVIEW_LENGTH] == b[..PREVIEW_LENGTH]
    ensures KeyPreview(a) == KeyPreview(b)
  {
  }

  /** How `console.error("\n✗", error)` renders a missing error. */
  function ErrorText(error: Option<string>): string {
    match error
    case Some(message) => message
    case None => "undefined"
  }

  /**
   * `output(result, false)`: two lines on standard output on success (the second showing the
   * key preview), one line on standard error otherwise. The `!` on `apiKey` is the
   * precondition.
   */
  function Output(result: LoginResult): (lines: seq<Line>)
    requires result.success ==> result.apiKey.Some?
    ensures |lines| == if result.success then 2 else 1
    ensures forall k :: 0 <= k < |lines| ==> (lines[k].Stdout? <==> result.success)
    ensures result.success ==> lines[0].text == SAVED_MESSAGE && lines[1].text == "  Key: " + KeyPreview(result.apiKey.value)
    ensures !result.success ==> lines[0].text == "\n✗ " + ErrorText(result.error)
  {
    if result.success then [Stdout(SAVED_MESSAGE), Stdout("  Key: " + KeyPreview(result.apiKey.value))]
    else [Stderr("\n✗ " + ErrorText(result.error))]
  }

  /** `process.exit(1)` after every failure; a successful login ends normally. */
  function ExitCode(result: LoginResult): (code: nat)
    ensures code == 0 <==> result.success
  {
    if result.success then 0 else 1
  }

  /** Every outcome `login` can report is printable, and what it prints matches its exit code. */
  lemma OutcomeOutput(fetch: Fetcher, validate: Validator, save: Saver)
    ensures var r := LoginOutcome(fetch, validate, save);
      (r.success ==> r.apiKey.Some?) &&
      (ExitCode(r) == 0 <==> Output(r)[0].Stdout?)
  {
    LoginOutcomeFacts(fetch, validate, save);
  }
}
