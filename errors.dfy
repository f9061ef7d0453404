/** Error formatting, error classification, input validation and the retry loop
    (github_agent/src/errors.py). An exception is represented by the text `str(e)` and,
    where it matters, the name of its class. */
module Errors {
  import opened Wrappers
  import opened Text

  // ---------------------------------------------------------------------------
  // AgentError

  const DetailsLabel := "\n📋 Details: "
  const SuggestionLabel := "\n💡 Suggestion: "

  /** `AgentError(message, suggestion, details)`. */
  datatype AgentError = AgentError(message: string, suggestion: string, details: string) {

    /** The parts `format_error` joins with "\n": the message, then a Details part only
        when there are details, then a Suggestion part only when there is a suggestion. */
    function Parts(): (parts: seq<string>)
      ensures 1 <= |parts| <= 3 && parts[0] == "❌ " + message
      ensures |parts| == 1 + (if details != "" then 1 else 0) + (if suggestion != "" then 1 else 0)
    {
      ["❌ " + message]
      + (if details != "" then [DetailsLabel + details] else [])
      + (if suggestion != "" then [SuggestionLabel + suggestion] else [])
    }

    /** `format_error()`, which is also `str()` of the exception: it starts with the
        message, and is the message alone when there are no details and no suggestion. */
    function Format(): (r: string)
      ensures "❌ " + message <= r
      ensures details == "" && suggestion == "" ==> r == "❌ " + message
    {
      JoinStartsWithFirst(Parts(), "\n");
      JoinLines(Parts())
    }
  }

  /** The text `format_error` produces, written out: the message, a blank line and the
      details when present, then a blank line and the suggestion when present. */
  function FormatReference(message: string, suggestion: string, details: string): string {
    "❌ " + message
    + (if details != "" then "\n" + DetailsLabel + details else "")
    + (if suggestion != "" then "\n" + SuggestionLabel + suggestion else "")
  }

  lemma JoinOne(a: string, sep: string)
    ensures Join([a], sep) == a
  {
  }

  lemma JoinTwo(a: string, b: string, sep: string)
    ensures Join([a, b], sep) == a + sep + b
  {
    assert [a, b][1..] == [b];
  }

  lemma JoinThree(a: string, b: string, c: string, sep: string)
    ensures Join([a, b, c], sep) == a + sep + b + sep + c
  {
    assert [a, b, c][1..] == [b, c];
    JoinTwo(b, c, sep);
  }

  lemma FormatMatchesReference(e: AgentError)
    ensures e.Format() == FormatReference(e.message, e.suggestion, e.details)
  {
    var m := "❌ " + e.message;
    var d := DetailsLabel + e.details;
    var g := SuggestionLabel + e.suggestion;
    if e.details != "" && e.suggestion != "" {
      FormatAllParts(e, m, d, g);
    } else if e.details != "" {
      assert e.Parts() == [m, d];
      JoinTwo(m, d, "\n");
    } else if e.suggestion != "" {
      assert e.Parts() == [m, g];
      JoinTwo(m, g, "\n");
    } else {
      assert e.Parts() == [m];
    }
  }

  lemma FormatAllParts(e: AgentError, m: string, d: string, g: string)
    requires e.details != "" && e.suggestion != ""
    requires m == "❌ " + e.message && d == DetailsLabel + e.details && g == SuggestionLabel + e.suggestion
    ensures e.Format() == m + "\n" + d + "\n" + g
  {
    assert e.Parts() == [m, d, g];
    JoinThree(m, d, g, "\n");
  }

  /** The formatted error always starts with the message. */
  lemma FormatStartsWithMessage(e: AgentError)
    ensures "❌ " + e.message <= e.Format()
  {
    FormatMatchesReference(e);
    var rest := (if e.details != "" then "\n" + DetailsLabel + e.details else "")
      + (if e.suggestion != "" then "\n" + SuggestionLabel + e.suggestion else "");
    assert FormatReference(e.message, e.suggestion, e.details) == "❌ " + e.message + rest;
  }

  // ---------------------------------------------------------------------------
  // retry_on_failure

  /** What one call of the wrapped function does: return a value, or raise an exception
      with text `str(e)` of class `typeName`. */
  datatype Attempt<T> = Success(value: T) | Failure(text: string, typeName: string)

  /** How the wrapper ends: it returns a value, raises an `AgentError`, or — for a
      non-positive `max_retries` — falls through and returns `None`. */
  datatype RetryOutcome<T> = Returned(value: T) | RaisedAgentError(error: AgentError) | ReturnedNone

  const RetrySuggestion := "Check your network connection and API credentials"

  /** The `AgentError` raised after the last failed attempt. */
  function RetryError(maxRetries: int, text: string, typeName: string): AgentError {
    AgentError("Failed after " + IntToString(maxRetries) + " attempts: " + text,
               RetrySuggestion,
               "Last error: " + typeName)
  }

  /** The wrapper of `retry_on_failure(max_retries)` around a function whose `k`-th call
      (counting from 0) behaves as `call(k)`. `calls` is how many times it was called. The
      sleeps between attempts are not modelled. */
  method RetryOnFailure<T>(maxRetries: int, call: nat -> Attempt<T>) returns (outcome: RetryOutcome<T>, calls: nat)
    ensures calls <= (if maxRetries < 0 then 0 else maxRetries)
    ensures forall k :: 0 <= k < calls - 1 ==> call(k).Failure?
    ensures outcome.Returned? <==> calls > 0 && call(calls - 1).Success?
    ensures outcome.Returned? ==> outcome.value == call(calls - 1).value
    ensures outcome.RaisedAgentError? <==>
              maxRetries >= 1 && calls == maxRetries && call(maxRetries - 1).Failure?
    ensures outcome.RaisedAgentError? ==>
              outcome.error == RetryError(maxRetries, call(calls - 1).text, call(calls - 1).typeName)
    ensures outcome.ReturnedNone? <==> maxRetries <= 0
  {
    var attempt := 0;
    while attempt < maxRetries
      invariant 0 <= attempt <= (if maxRetries < 0 then 0 else maxRetries)
      invariant maxRetries <= 0 || attempt < maxRetries
      invariant forall k :: 0 <= k < attempt ==> call(k).Failure?
    {
      var result := call(attempt);
      if result.Success? {
        return Returned(result.value), attempt + 1;
      }
      if attempt < maxRetries - 1 {
        attempt := attempt + 1;
      } else {
        return RaisedAgentError(RetryError(maxRetries, result.text, result.typeName)), attempt + 1;
      }
    }
    return ReturnedNone, 0;
  }

  /** The error raised after the last attempt names the number of attempts and the last
      exception, and carries the fixed suggestion. */
  lemma RetryErrorText(maxRetries: int, text: string, typeName: string)
    ensures var e := RetryError(maxRetries, text, typeName);
      && e.message == "Failed after " + IntToString(maxRetries) + " attempts: " + text
      && e.details == "Last error: " + typeName
      && e.suggestion == RetrySuggestion
      && e.Format() == "❌ " + e.message + "\n" + DetailsLabel + e.details + "\n" + SuggestionLabel + e.suggestion
  {
    var e := RetryError(maxRetries, text, typeName);
    assert e.details[0] == 'L' && e.suggestion == RetrySuggestion;
    FormatAllParts(e, "❌ " + e.message, DetailsLabel + e.details, SuggestionLabel + e.suggestion);
  }

  // ---------------------------------------------------------------------------
  // handle_github_error

  /** Which message `handle_github_error` chooses. */
  datatype GithubErrorKind = GithubRateLimit | GithubAuthFailed | GithubNotFound | GithubNetwork | GithubGeneric

  /** The substrings that select each kind, in the order they are tried. */
  const GithubRules: seq<(GithubErrorKind, seq<string>)> := [
    (GithubRateLimit, ["rate limit", "403"]),
    (GithubAuthFailed, ["401", "authentication"]),
    (GithubNotFound, ["404", "not found"]),
    (GithubNetwork, ["timeout", "connection"])
  ]

  /** Some pattern occurs in `text`. */
  predicate AnyIn(text: string, patterns: seq<string>) {
    exists i :: 0 <= i < |patterns| && Contains(text, patterns[i])
  }

  /** The kind of the first rule one of whose patterns occurs in `text`, or `fallback`. */
  function FirstMatch<K>(rules: seq<(K, seq<string>)>, text: string, fallback: K): K
    decreases |rules|
  {
    if rules == [] then fallback
    else if AnyIn(text, rules[0].1) then rules[0].0
    else FirstMatch(rules[1..], text, fallback)
  }

  /** The `if` chain of `handle_github_error` over the lower-cased text: a rate limit
      exactly when "rate limit" or "403" occurs, and the generic message exactly when no
      pattern of any rule occurs. */
  function ClassifyGithubError(lowered: string): (r: GithubErrorKind)
    ensures r == GithubRateLimit <==> Contains(lowered, "rate limit") || Contains(lowered, "403")
    ensures r == GithubGeneric <==> forall i :: 0 <= i < |GithubRules| ==> !AnyIn(lowered, GithubRules[i].1)
  {
    AnyInTwo(lowered, "rate limit", "403");
    AnyInTwo(lowered, "401", "authentication");
    AnyInTwo(lowered, "404", "not found");
    AnyInTwo(lowered, "timeout", "connection");
    assert GithubRules[0].1 == ["rate limit", "403"] && GithubRules[1].1 == ["401", "authentication"];
    assert GithubRules[2].1 == ["404", "not found"] && GithubRules[3].1 == ["timeout", "connection"];
    if Contains(lowered, "rate limit") || Contains(lowered, "403") then GithubRateLimit
    else if Contains(lowered, "401") || Contains(lowered, "authentication") then GithubAuthFailed
    else if Contains(lowered, "404") || Contains(lowered, "not found") then GithubNotFound
    else if Contains(lowered, "timeout") || Contains(lowered, "connection") then GithubNetwork
    else GithubGeneric
  }

  lemma AnyInTwo(text: string, a: string, b: string)
    ensures AnyIn(text, [a, b]) <==> Contains(text, a) || Contains(text, b)
  {
    var p := [a, b];
    if Contains(text, a) { assert Contains(text, p[0]); }
    if Contains(text, b) { assert Contains(text, p[1]); }
  }

  /** The chain is first-match over the rule table: earlier rules win. */
  lemma ClassifyGithubIsFirstMatch(lowered: string)
    ensures ClassifyGithubError(lowered) == FirstMatch(GithubRules, lowered, GithubGeneric)
  {
    var r := GithubRules;
    AnyInTwo(lowered, "rate limit", "403");
    AnyInTwo(lowered, "401", "authentication");
    AnyInTwo(lowered, "404", "not found");
    AnyInTwo(lowered, "timeout", "connection");
    assert r[1..][1..][1..][1..] == [];
  }

  /** `context if context else default`. */
  function OrDefault(context: string, default: string): string {
    if context != "" then context else default
  }

  /** The words of the rate-limit message that its lower-cased text is searched for. */
  const RateLimitWords := "Rate Limit"
  const WaitWord := "Wait"

  /** The title and Details label of each message. */
  function GithubHead(kind: GithubErrorKind): string {
    match kind
    case GithubRateLimit => "❌ GitHub API " + RateLimitWords + " Exceeded\n        \n📋 Details: "
    case GithubAuthFailed => "❌ GitHub Authentication Failed\n        \n📋 Details: "
    case GithubNotFound => "❌ Resource Not Found\n        \n📋 Details: "
    case GithubNetwork => "❌ Network Connection Issue\n        \n📋 Details: "
    case GithubGeneric => "❌ GitHub API Error\n    \n📋 Details: "
  }

  /** The details shown when no context is given. */
  function GithubDefaultDetails(kind: GithubErrorKind): string {
    match kind
    case GithubRateLimit => "API request failed"
    case GithubAuthFailed => "Credentials invalid or missing"
    case GithubNotFound => "Repository or resource not found"
    case GithubNetwork => "Network request failed"
    case GithubGeneric => "Request failed"
  }

  /** The suggestions, up to the label of the error text. */
  function GithubTail(kind: GithubErrorKind): string {
    match kind
    case GithubRateLimit =>
      "\n\n💡 Suggestions:\n   1. " + WaitWord + " a few minutes before trying again"
      + "\n   2. Check your rate limit: https://github.com/settings/tokens"
      + "\n   3. Consider using a GitHub Personal Access Token with higher limits\n   \nCurrent error: "
    case GithubAuthFailed =>
      "\n\n💡 Suggestions:\n   1. Check GITHUB_TOKEN in your .env file"
      + "\n   2. Ensure token has required permissions (repo, read:org)"
      + "\n   3. Generate a new token: https://github.com/settings/tokens\n   \nCurrent error: "
    case GithubNotFound =>
      "\n\n💡 Suggestions:\n   1. Check the repository name (format: owner/repo)"
      + "\n   2. Verify the repository is public or you have access"
      + "\n   3. Check for typos in the URL or name\n   \nCurrent error: "
    case GithubNetwork =>
      "\n\n💡 Suggestions:\n   1. Check your internet connection\n   2. Try again in a moment"
      + "\n   3. Check if GitHub is accessible: https://www.githubstatus.com/\n   \nCurrent error: "
    case GithubGeneric =>
      "\n\n💡 Suggestion: Check the error message below for more details\n\nError: "
  }

  /** The message for each kind; `error` is `str(error)`. */
  function GithubErrorMessage(kind: GithubErrorKind, error: string, context: string): string {
    GithubHead(kind) + OrDefault(context, GithubDefaultDetails(kind)) + GithubTail(kind) + error
  }

  /** `handle_github_error(error, context)`: the message shows the context when there is
      one and ends with the error text. */
  function HandleGithubError(error: string, context: string): (r: string)
    ensures context != "" ==> Contains(r, context)
    ensures |error| <= |r| && r[|r| - |error|..] == error
  {
    var kind := ClassifyGithubError(Lower(error));
    PiecesContain(GithubHead(kind), OrDefault(context, GithubDefaultDetails(kind)), GithubTail(kind), error);
    GithubErrorMessage(ClassifyGithubError(Lower(error)), error, context)
  }

  /** The second and the last of four concatenated pieces occur in the whole. */
  lemma PiecesContain(h: string, d: string, t: string, e: string)
    ensures Contains(h + d + t + e, d)
    ensures Contains(h + d + t + e, e)
    ensures (h + d + t + e)[|h + d + t + e| - |e|..] == e
  {
    assert h + d + t + e == h + d + (t + e);
    ContainsSelf(d);
    ContainsConcat(h, d, d);
    ContainsConcat(h + d, t + e, d);
    ContainsSelf(e);
    ContainsConcat(h + d + t, e, e);
  }

  /** Every message shows the context, or its kind's default when the context is empty,
      and ends with the original error text. */
  lemma GithubMessageShowsContextAndError(kind: GithubErrorKind, error: string, context: string)
    ensures context != "" ==> Contains(GithubErrorMessage(kind, error, context), context)
    ensures context == "" ==> Contains(GithubErrorMessage(kind, error, context), GithubDefaultDetails(kind))
    ensures var m := GithubErrorMessage(kind, error, context); |error| <= |m| && m[|m| - |error|..] == error
    ensures Contains(GithubErrorMessage(kind, error, context), error)
  {
    PiecesContain(GithubHead(kind), OrDefault(context, GithubDefaultDetails(kind)), GithubTail(kind), error);
  }

  lemma ContainsLowered(a: string, b: string, c: string, sub: string)
    requires Lower(b) == sub
    ensures Contains(Lower(a + b + c), sub)
  {
    LowerConcat(a + b, c);
    LowerConcat(a, b);
    ContainsSelf(sub);
    ContainsConcat(Lower(a), sub, sub);
    ContainsConcat(Lower(a) + sub, Lower(c), sub);
  }

  lemma ContainsLoweredAround(a: string, b: string, sub: string)
    ensures Contains(Lower(b), sub) ==> Contains(Lower(a + b), sub)
    ensures Contains(Lower(a), sub) ==> Contains(Lower(a + b), sub)
  {
    LowerConcat(a, b);
    ContainsConcat(Lower(a), Lower(b), sub);
  }

  lemma RateLimitHeadSaysRateLimit()
    ensures Contains(Lower(GithubHead(GithubRateLimit)), "rate limit")
  {
    var a1 := "❌ GitHub API ";
    var c1 := " Exceeded\n        \n📋 Details: ";
    assert GithubHead(GithubRateLimit) == a1 + RateLimitWords + c1;
    assert Lower(RateLimitWords) == "rate limit";
    ContainsLowered(a1, RateLimitWords, c1, "rate limit");
  }

  lemma RateLimitTailSaysWait()
    ensures Contains(Lower(GithubTail(GithubRateLimit)), "wait")
  {
    var a2 := "\n\n💡 Suggestions:\n   1. ";
    var c2 := " a few minutes before trying again"
      + "\n   2. Check your rate limit: https://github.com/settings/tokens"
      + "\n   3. Consider using a GitHub Personal Access Token with higher limits\n   \nCurrent error: ";
    assert GithubTail(GithubRateLimit) == a2 + WaitWord + c2;
    assert Lower(WaitWord) == "wait";
    ContainsLowered(a2, WaitWord, c2, "wait");
  }

  /** The rate-limit message tells the user, in lower case, about the "rate limit" and to
      "wait". */
  lemma RateLimitMessageSaysWait(error: string, context: string)
    ensures Contains(Lower(GithubErrorMessage(GithubRateLimit, error, context)), "rate limit")
    ensures Contains(Lower(GithubErrorMessage(GithubRateLimit, error, context)), "wait")
  {
    var h := GithubHead(GithubRateLimit);
    var d := OrDefault(context, GithubDefaultDetails(GithubRateLimit));
    var t := GithubTail(GithubRateLimit);
    RateLimitHeadSaysRateLimit();
    RateLimitTailSaysWait();
    var m := GithubErrorMessage(GithubRateLimit, error, context);
    assert m == h + (d + t + error);
    ContainsLoweredAround(h, d + t + error, "rate limit");
    assert m == (h + d) + t + error;
    ContainsLoweredAround(h + d, t, "wait");
    ContainsLoweredAround(h + d + t, error, "wait");
  }

  /** A "403" is read as a rate limit even when the text also says "401" or "404". */
  lemma ForbiddenWinsOverOthers()
    ensures HandleGithubError("403 Forbidden: Not Found", "") == GithubErrorMessage(GithubRateLimit, "403 Forbidden: Not Found", "")
  {
    assert Lower("403 Forbidden: Not Found")[0..3] == "403";
    ContainsAt(Lower("403 Forbidden: Not Found"), "403", 0);
  }

  // ---------------------------------------------------------------------------
  // handle_search_error

  datatype SearchErrorKind = SearchAuthFailed | SearchRateLimit | SearchGeneric

  const SearchRules: seq<(SearchErrorKind, seq<string>)> := [
    (SearchAuthFailed, ["api key", "unauthorized"]),
    (SearchRateLimit, ["rate limit", "quota"])
  ]

  /** The `if` chain of `handle_search_error` over the lower-cased text. */
  function ClassifySearchError(lowered: string): SearchErrorKind {
    if Contains(lowered, "api key") || Contains(lowered, "unauthorized") then SearchAuthFailed
    else if Contains(lowered, "rate limit") || Contains(lowered, "quota") then SearchRateLimit
    else SearchGeneric
  }

  lemma ClassifySearchIsFirstMatch(lowered: string)
    ensures ClassifySearchError(lowered) == FirstMatch(SearchRules, lowered, SearchGeneric)
  {
    var r := SearchRules;
    AnyInTwo(lowered, "api key", "unauthorized");
    AnyInTwo(lowered, "rate limit", "quota");
    assert r[1..][1..] == [];
  }

  /** Each message up to the label of the query. */
  function SearchHead(kind: SearchErrorKind): string {
    match kind
    case SearchAuthFailed =>
      "❌ Search API Authentication Failed\n        \n📋 Details: Tavily API key is missing or invalid"
      + "\n\n💡 Suggestions:\n   1. Check TAVILY_API_KEY in your .env file"
      + "\n   2. Sign up for a free API key: https://tavily.com"
      + "\n   3. Ensure no extra spaces or quotes in the key\n   \nQuery attempted: "
    case SearchRateLimit =>
      "❌ Search API Rate Limit Reached\n        \n📋 Details: Daily search quota exceeded"
      + "\n\n💡 Suggestions:\n   1. Wait until tomorrow for quota reset"
      + "\n   2. Upgrade to a higher tier at https://tavily.com"
      + "\n   3. Use a different search strategy with fewer queries\n   \nQuery attempted: "
    case SearchGeneric =>
      "❌ Search Failed\n    \n📋 Details: Web search could not be completed"
      + "\n\n💡 Suggestions:\n   1. Try simplifying your query\n   2. Check your internet connection"
      + "\n   3. Try again in a moment\n   \nQuery: "
  }

  function SearchErrorMessage(kind: SearchErrorKind, error: string, query: string): string {
    if kind == SearchGeneric then SearchHead(kind) + query + "\nError: " + error
    else SearchHead(kind) + query
  }

  /** `handle_search_error(error, query)`: every message names the query. */
  function HandleSearchError(error: string, query: string): (r: string)
    ensures Contains(r, query)
    ensures ClassifySearchError(Lower(error)) == SearchGeneric ==> Contains(r, error)
  {
    SearchMessageNamesQuery(ClassifySearchError(Lower(error)), error, query);
    SearchErrorMessage(ClassifySearchError(Lower(error)), error, query)
  }

  /** Every search error message echoes the query; the generic one ends with the error
      text. */
  lemma SearchMessageNamesQuery(kind: SearchErrorKind, error: string, query: string)
    ensures Contains(SearchErrorMessage(kind, error, query), query)
    ensures kind == SearchGeneric ==> Contains(SearchErrorMessage(kind, error, query), error)
  {
    var h := SearchHead(kind);
    ContainsSelf(query);
    ContainsConcat(h, query, query);
    if kind == SearchGeneric {
      var tail := "\nError: " + error;
      ContainsConcat(h + query, tail, query);
      assert SearchErrorMessage(kind, error, query) == h + query + tail;
      ContainsSelf(error);
      ContainsConcat("\nError: ", error, error);
      ContainsConcat(h + query, tail, error);
    }
  }

  // ---------------------------------------------------------------------------
  // validate_repo_name and validate_issue_url

  /** `name` is `owner + "/" + repo` with both parts non-empty and free of '/'. */
  predicate IsOwnerRepo(name: string, owner: string, repo: string) {
    owner != "" && repo != "" && '/' !in owner && '/' !in repo && name == owner + "/" + repo
  }

  const ExpectedFormatHint := "Expected format: owner/repository"
    + "\n   Examples: \n   - openai/openai-python\n   - facebook/react\n   - microsoft/vscode"
  const OneSlashHint := "Should contain exactly one '/' separating owner and repository name"
  const NonEmptyHint := "Both owner and repository name must be non-empty"

  /** A rejection of the repository name `name`, with a hint. */
  function RepoFormatError(name: string, hint: string): string {
    "Invalid repository format: '" + name + "'\n\n💡 " + hint
  }

  /** `validate_repo_name`: `(is_valid, error_message)`. */
  function ValidateRepoName(name: string): (r: (bool, string))
    ensures r.0 <==> r.1 == ""
  {
    if name == "" then (false, "Repository name cannot be empty")
    else if '/' !in name then (false, RepoFormatError(name, ExpectedFormatHint))
    else
      var parts := Split(name, '/');
      if |parts| != 2 then (false, RepoFormatError(name, OneSlashHint))
      else if parts[0] == "" || parts[1] == "" then (false, RepoFormatError(name, NonEmptyHint))
      else (true, "")
  }

  /** A name is accepted exactly when it is "owner/repo" with two non-empty parts, and then
      the message is empty. */
  lemma ValidateRepoNameIff(name: string)
    ensures ValidateRepoName(name).0 <==> exists o, r :: IsOwnerRepo(name, o, r)
    ensures ValidateRepoName(name).0 ==> ValidateRepoName(name).1 == ""
  {
    if ValidateRepoName(name).0 {
      var parts := Split(name, '/');
      JoinTwo(parts[0], parts[1], "/");
      assert parts == [parts[0], parts[1]];
      assert IsOwnerRepo(name, parts[0], parts[1]);
    }
    if exists o, r :: IsOwnerRepo(name, o, r) {
      var o, r :| IsOwnerRepo(name, o, r);
      JoinTwo(o, r, "/");
      SplitJoin([o, r], '/');
      assert name[|o|] == '/';
    }
  }

  /** A name without any '/' is rejected with a message showing the expected format. */
  lemma NoSlashNamesFormat(name: string)
    requires name != "" && '/' !in name
    ensures !ValidateRepoName(name).0
    ensures Contains(ValidateRepoName(name).1, "owner/repository")
  {
    var a := "Invalid repository format: '" + name + "'\n\n💡 ";
    var h1 := "Expected format: ";
    var h2 := "\n   Examples: \n   - openai/openai-python\n   - facebook/react\n   - microsoft/vscode";
    assert ExpectedFormatHint == h1 + "owner/repository" + h2;
    ContainsSelf("owner/repository");
    ContainsConcat(h1, "owner/repository", "owner/repository");
    ContainsConcat(h1 + "owner/repository", h2, "owner/repository");
    ContainsConcat(a, ExpectedFormatHint, "owner/repository");
  }

  /** `validate_issue_url`: `(is_valid, error_message)`. */
  function ValidateIssueUrl(url: string): (r: (bool, string))
    ensures r.0 <==> r.1 == ""
    ensures r.0 ==> Contains(url, "github.com")
  {
    if url == "" then (false, "Issue URL cannot be empty")
    else if !Contains(url, "github.com") then (false, NotGithubUrl(url))
    else if !Contains(url, "/issues/") && !Contains(url, "/pull/") then (false, NotIssueUrl(url))
    else (true, "")
  }

  /** A URL is accepted exactly when it mentions "github.com" and has an "/issues/" or
      "/pull/" segment, and then the message is empty; the empty URL is refused first. */
  lemma ValidateIssueUrlIff(url: string)
    ensures ValidateIssueUrl(url).0 <==>
              Contains(url, "github.com") && (Contains(url, "/issues/") || Contains(url, "/pull/"))
    ensures ValidateIssueUrl(url).0 ==> ValidateIssueUrl(url).1 == ""
    ensures url == "" ==> ValidateIssueUrl(url) == (false, "Issue URL cannot be empty")
  {
    if url == "" {
      assert !Contains(url, "github.com");
    }
  }

  function NotGithubUrl(url: string): string {
    "Invalid GitHub URL: '" + url + "'\n\n💡 Must be a GitHub URL\n   Example: https://github.com/owner/repo/issues/123"
  }

  function NotIssueUrl(url: string): string {
    "URL doesn't appear to be a GitHub issue or PR: '" + url + "'\n\n💡 Expected formats:\n"
    + "   - https://github.com/owner/repo/issues/123\n   - https://github.com/owner/repo/pull/456"
  }

  /** The link to an issue, as GitHub writes it. */
  function IssueLink(owner: string, repo: string, number: nat): string {
    "https://github.com/" + owner + "/" + repo + "/issues/" + NatToString(number)
  }

  /** Every issue link is accepted. */
  lemma IssueLinkValid(owner: string, repo: string, number: nat)
    ensures ValidateIssueUrl(IssueLink(owner, repo, number)) == (true, "")
  {
    var url := IssueLink(owner, repo, number);
    var head := "https://github.com/" + owner + "/" + repo;
    assert url == head + "/issues/" + NatToString(number);
    assert url[8..18] == "github.com";
    ContainsAt(url, "github.com", 8);
    assert url[|head|..|head| + 8] == "/issues/";
    ContainsAt(url, "/issues/", |head|);
  }
}
