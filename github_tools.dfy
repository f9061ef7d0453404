/** The GitHub API wrappers of github_agent/src/tools/github_tools.py with the PyGithub client
    replaced by oracle functions: URL parsing and the state update of `get_issue_details`, the
    query and limits of `search_code_in_repo`, the branch fallback of `read_file_from_repo` and
    the validation gate of `get_repository_info`. `build_tree` is the module GithubTree. */
module GithubTools {
  import opened Wrappers
  import opened Text
  import opened State
  import Errors

  /** An exception raised by a client call: a `GithubException`, with its status, the
      `message` entry of its data if there is one, and its `str()`; or any other exception,
      with its `str()`. */
  datatype Fault = ApiFault(status: int, message: Option<string>, text: string) | OtherFault(text: string)

  /** What a client call gives back: its value, or the exception it raised. */
  datatype Fetch<+T> = Got(value: T) | Failed(fault: Fault)

  /** `f"GitHub API error: {e.status} - {e.data.get('message', 'Unknown error')}"`. */
  function ApiErrorText(status: int, message: Option<string>): string {
    "GitHub API error: " + IntToString(status) + " - " + message.GetOr("Unknown error")
  }

  /** The answer of a tool whose client call raised `fault`: the API error line for a
      `GithubException`, otherwise `otherPrefix` followed by the exception text. */
  function FaultText(fault: Fault, otherPrefix: string): string {
    match fault
    case ApiFault(status, message, _) => ApiErrorText(status, message)
    case OtherFault(text) => otherPrefix + text
  }

  // ---------------------------------------------------------------------------
  // get_issue_details: parsing the URL

  /** The owner, repository and number picked out of an issue URL. */
  datatype IssueRef = IssueRef(owner: string, repo: string, number: int)

  /** The outcome of parsing: the guard rejects the URL, picking it apart raises (a missing
      segment or a number `int()` refuses, with the exception text), or the parsed reference. */
  datatype UrlParse = NotAnIssueUrl | Malformed(reason: string) | IssueAt(ref: IssueRef)

  /** `issue_url.rstrip('/').split('/')`. */
  function UrlSegments(url: string): seq<string> {
    Split(RStripChars(url, {'/'}), '/')
  }

  const IndexErrorText := "list index out of range"

  /** The text of the `ValueError` that `int()` raises for `s`, which quotes `repr(s)`. */
  function IntValueErrorText(s: string): string {
    "invalid literal for int() with base 10: " + Repr(s)
  }

  /** A segment without backslashes or control characters is quoted as it is: in single
      quotes, or in double quotes when it holds a single quote and no double quote. */
  lemma IntErrorQuotesSegment(s: string)
    requires forall i :: 0 <= i < |s| ==> s[i] != '\\' && s[i] >= ' ' && !HexEscaped(s[i])
    ensures '\'' !in s ==> IntValueErrorText(s) == "invalid literal for int() with base 10: '" + s + "'"
    ensures '\'' in s && '"' !in s ==> IntValueErrorText(s) == "invalid literal for int() with base 10: \"" + s + "\""
  {
    ReprOfPlain(s);
  }

  /** Lines 262-281: the guard, then the two segments before the first "issues" segment and
      the one after it, with Python's negative indexing and `int()`. The guard alone
      rejects; the owner and repository are segments of the URL, and the number is read
      from the segment after the first "issues", whose `int()` failure is reported with
      its text. */
  function ParseIssueUrl(url: string): (r: UrlParse)
    ensures r.NotAnIssueUrl? <==> !Contains(url, "github.com") || "issues" !in UrlSegments(url)
    ensures r.IssueAt? ==> r.ref.owner in UrlSegments(url) && r.ref.repo in UrlSegments(url)
    ensures !r.NotAnIssueUrl? ==>
              var parts := UrlSegments(url);
              var i := IndexOf(parts, "issues").value;
              (r.IssueAt? ==> i + 1 < |parts| && PyInt(parts[i + 1]) == Some(r.ref.number))
              && (r.Malformed? ==> r.reason == IndexErrorText
                                   || (i + 1 < |parts| && PyInt(parts[i + 1]).None?
                                       && r.reason == IntValueErrorText(parts[i + 1])))
  {
    var parts := UrlSegments(url);
    if !Contains(url, "github.com") || "issues" !in parts then NotAnIssueUrl
    else
      PartsAt(parts, IndexOf(parts, "issues").value)
  }

  /** `parts[i-2]`, `parts[i-1]` and `int(parts[i+1])` around the "issues" segment at `i`. */
  function PartsAt(parts: seq<string>, i: int): UrlParse {
    match (PyIndex(parts, i - 2), PyIndex(parts, i - 1), PyIndex(parts, i + 1))
    case (Some(owner), Some(repo), Some(num)) =>
      (match PyInt(num)
       case Some(n) => IssueAt(IssueRef(owner, repo, n))
       case None => Malformed(IntValueErrorText(num)))
    case _ => Malformed(IndexErrorText)
  }

  /** Joining separator-free segments, the last one non-empty, and parsing splits them back. */
  lemma SegmentsOfJoin(parts: seq<string>)
    requires |parts| >= 1 && parts[|parts| - 1] != ""
    requires forall i :: 0 <= i < |parts| ==> '/' !in parts[i]
    ensures UrlSegments(Join(parts, "/")) == parts
  {
    var url := Join(parts, "/");
    var last := parts[|parts| - 1];
    JoinEndsWithLast(parts, "/");
    assert url[|url| - 1] == last[|last| - 1];
    assert url[|url| - 1] != '/' by {
      assert last[|last| - 1] in last;
    }
    assert RStripChars(url, {'/'}) == url;
    SplitJoin(parts, '/');
  }

  /** The segments of the canonical issue link. */
  function LinkSegments(owner: string, repo: string, last: string): seq<string> {
    ["https:", "", "github.com", owner, repo, "issues", last]
  }

  lemma HostLiteral(j: string)
    ensures "https:" + "/" + ("" + "/" + ("github.com" + "/" + j)) == "https://github.com/" + j
    ensures Contains("https://github.com/" + j, "github.com")
  {
    assert "https:" + "/" + "" + "/" + "github.com" + "/" == "https://github.com/";
    var h := "https://github.com/";
    assert h[8..18] == "github.com";
    assert (h + j)[8..18] == h[8..18];
    ContainsAt(h + j, "github.com", 8);
  }

  /** Joining segments after the scheme and host gives a URL that mentions "github.com". */
  lemma HostPrefix(rest: seq<string>)
    requires |rest| >= 1
    ensures Join(["https:", "", "github.com"] + rest, "/") == "https://github.com/" + Join(rest, "/")
    ensures Contains("https://github.com/" + Join(rest, "/"), "github.com")
  {
    var r1 := ["github.com"] + rest;
    var r2 := [""] + r1;
    JoinCons("github.com", rest, "/");
    JoinCons("", r1, "/");
    JoinCons("https:", r2, "/");
    assert ["https:"] + r2 == ["https:", "", "github.com"] + rest;
    HostLiteral(Join(rest, "/"));
  }

  /** The segments from the owner on, joined. */
  lemma TailJoin(owner: string, repo: string, last: string)
    ensures Join([owner, repo, "issues", last], "/") == owner + "/" + repo + "/issues/" + last
    ensures Join([owner, repo, "issues"], "/") == owner + "/" + repo + "/issues"
  {
    JoinCons("issues", [last], "/");
    JoinCons(repo, ["issues", last], "/");
    JoinCons(owner, [repo, "issues", last], "/");
    JoinCons(repo, ["issues"], "/");
    JoinCons(owner, [repo, "issues"], "/");
  }

  lemma DigitsHaveNoSlash(number: nat)
    ensures '/' !in NatToString(number)
  {
    var n := NatToString(number);
    assert forall k :: 0 <= k < |n| ==> n[k] != '/' by {
      forall k | 0 <= k < |n| ensures n[k] != '/' {
        assert IsDigit(n[k]);
      }
    }
  }

  /** Once the segments are known: the owner, repository and number sit around the first
      "issues" segment. */
  lemma ParseOfSegments(url: string, parts: seq<string>, i: nat)
    requires UrlSegments(url) == parts && Contains(url, "github.com")
    requires IndexOf(parts, "issues") == Some(i) && 2 <= i && i + 1 < |parts|
    ensures ParseIssueUrl(url) == match PyInt(parts[i + 1])
              case Some(n) => IssueAt(IssueRef(parts[i - 2], parts[i - 1], n))
              case None => Malformed(IntValueErrorText(parts[i + 1]))
  {
    assert parts[i] == "issues";
    assert ParseIssueUrl(url) == PartsAt(parts, i);
    var triple := (PyIndex(parts, i - 2), PyIndex(parts, i - 1), PyIndex(parts, i + 1));
    assert triple == (Some(parts[i - 2]), Some(parts[i - 1]), Some(parts[i + 1]));
  }

  /** The canonical link splits into its seven segments and mentions "github.com". */
  lemma LinkUrlSegments(owner: string, repo: string, last: string)
    requires '/' !in owner && '/' !in repo && '/' !in last && last != ""
    ensures var url := "https://github.com/" + owner + "/" + repo + "/issues/" + last;
            UrlSegments(url) == LinkSegments(owner, repo, last) && Contains(url, "github.com")
  {
    var p := LinkSegments(owner, repo, last);
    var rest := [owner, repo, "issues", last];
    assert p == ["https:", "", "github.com"] + rest;
    HostPrefix(rest);
    TailJoin(owner, repo, last);
    var url := "https://github.com/" + owner + "/" + repo + "/issues/" + last;
    assert url == "https://github.com/" + Join(rest, "/");
    LinkSegmentsHaveNoSlash(owner, repo, last);
    SegmentsOfJoin(p);
  }

  lemma LinkSegmentsHaveNoSlash(owner: string, repo: string, last: string)
    requires '/' !in owner && '/' !in repo && '/' !in last
    ensures forall i :: 0 <= i < 7 ==> '/' !in LinkSegments(owner, repo, last)[i]
  {
    var p := LinkSegments(owner, repo, last);
    assert '/' !in p[0] && '/' !in p[1] && '/' !in p[2] && '/' !in p[5];
  }

  /** Parsing a link whose first "issues" segment is at index 5. */
  lemma ParseLinkSegments(owner: string, repo: string, last: string)
    requires '/' !in owner && '/' !in repo && owner != "issues" && repo != "issues"
    requires '/' !in last && last != ""
    ensures var url := "https://github.com/" + owner + "/" + repo + "/issues/" + last;
            ParseIssueUrl(url) == match PyInt(last)
              case Some(n) => IssueAt(IssueRef(owner, repo, n))
              case None => Malformed(IntValueErrorText(last))
  {
    var p := LinkSegments(owner, repo, last);
    LinkUrlSegments(owner, repo, last);
    assert p[0] != "issues" && p[1] != "issues" && p[2] != "issues";
    IndexOfAt(p, "issues", 5);
    ParseOfSegments("https://github.com/" + owner + "/" + repo + "/issues/" + last, p, 5);
  }

  /** Round trip: the canonical link of an issue parses back to its owner, repository and
      number whenever neither name contains '/' or is itself "issues". */
  lemma ParseIssueLink(owner: string, repo: string, number: nat)
    requires '/' !in owner && '/' !in repo && owner != "issues" && repo != "issues"
    ensures ParseIssueUrl(Errors.IssueLink(owner, repo, number)) == IssueAt(IssueRef(owner, repo, number))
  {
    var n := NatToString(number);
    DigitsHaveNoSlash(number);
    ParseLinkSegments(owner, repo, n);
    PyIntOfNatToString(number);
    assert Errors.IssueLink(owner, repo, number) == "https://github.com/" + owner + "/" + repo + "/issues/" + n;
  }

  /** A number `int()` refuses makes the parse fail with its `ValueError` text. */
  lemma ParseNonNumeric(owner: string, repo: string, num: string)
    requires '/' !in owner && '/' !in repo && owner != "issues" && repo != "issues"
    requires '/' !in num && num != "" && PyInt(num).None?
    ensures ParseIssueUrl("https://github.com/" + owner + "/" + repo + "/issues/" + num)
              == Malformed(IntValueErrorText(num))
  {
    ParseLinkSegments(owner, repo, num);
  }

  /** A link that stops at "issues" splits into its six segments, a trailing '/' or not. */
  lemma NumberlessSegments(owner: string, repo: string, trailing: bool)
    requires '/' !in owner && '/' !in repo
    ensures var url := "https://github.com/" + owner + "/" + repo + "/issues" + (if trailing then "/" else "");
            UrlSegments(url) == ["https:", "", "github.com", owner, repo, "issues"] && Contains(url, "github.com")
  {
    var rest := [owner, repo, "issues"];
    var p := ["https:", "", "github.com"] + rest;
    HostPrefix(rest);
    TailJoin(owner, repo, "");
    var head := "https://github.com/" + owner + "/" + repo + "/issues";
    assert head == "https://github.com/" + Join(rest, "/");
    assert '/' !in p[0] && '/' !in p[1] && '/' !in p[2] && '/' !in p[5];
    assert head == Join(p, "/");
    SegmentsOfJoin(p);
    assert UrlSegments(head) == p;
    var url := head + (if trailing then "/" else "");
    if trailing {
      assert url[|url| - 1] == '/';
      assert url[..|url| - 1] == head;
      assert RStripChars(url, {'/'}) == RStripChars(head, {'/'});
      ContainsConcat(head, "/", "github.com");
    } else {
      assert url == head;
    }
  }

  /** A link that stops at "issues", with or without a trailing '/', has no number to read:
      the parse fails with the `IndexError`. */
  lemma ParseMissingNumber(owner: string, repo: string, trailing: bool)
    requires '/' !in owner && '/' !in repo && owner != "issues" && repo != "issues"
    ensures ParseIssueUrl("https://github.com/" + owner + "/" + repo + "/issues" + (if trailing then "/" else ""))
              == Malformed(IndexErrorText)
  {
    var p := ["https:", "", "github.com", owner, repo, "issues"];
    NumberlessSegments(owner, repo, trailing);
    assert p[0] != "issues" && p[1] != "issues" && p[2] != "issues";
    IndexOfAt(p, "issues", 5);
  }

  /** With fewer than two segments before "issues", Python's negative indexing wraps around
      to the end of the list: "github.com/issues/7" names the owner "7" and the repository
      "github.com". */
  lemma ParseShortUrlWrapsAround(number: nat)
    ensures ParseIssueUrl("github.com/issues/" + NatToString(number))
              == IssueAt(IssueRef(NatToString(number), "github.com", number))
  {
    var n := NatToString(number);
    var p := ["github.com", "issues", n];
    var url := "github.com/issues/" + n;
    JoinCons("issues", [n], "/");
    JoinCons("github.com", ["issues", n], "/");
    assert p == ["github.com"] + ["issues", n];
    assert url == Join(p, "/");
    DigitsHaveNoSlash(number);
    SegmentsOfJoin(p);
    assert url[..10] == "github.com";
    ContainsAt(url, "github.com", 0);
    assert IndexOf(p, "issues") == Some(1);
    assert PyIndex(p, -1) == Some(n);
    PyIntOfNatToString(number);
  }

  // ---------------------------------------------------------------------------
  // get_issue_details: the saved file, the summary and the state update

  datatype Comment = Comment(author: string, createdAt: string, body: string)

  /** The fields of an issue the tool reads; a body of `None` is the empty string here, since
      the source treats both alike. Dates are their rendered text. */
  datatype Issue = Issue(title: string, state: string, createdAt: string, author: string,
                         labels: seq<string>, body: string, comments: seq<Comment>)

  /** At most this many comments are copied into the saved file. */
  const MaxComments := 10

  function CopiedComments(total: nat): (n: nat)
    ensures n <= total && n <= MaxComments
    ensures n == total || n == MaxComments
  {
    if total < MaxComments then total else MaxComments
  }

  /** The three lines one comment, numbered `idx`, contributes to the saved file. */
  function CommentLines(idx: nat, c: Comment): seq<string> {
    ["\n### Comment " + NatToString(idx) + " by " + c.author,
     "*" + c.createdAt + "*\n",
     if c.body != "" then c.body else "(empty)"]
  }

  /** The lines of the first `k` comments, numbered from 1. */
  function CommentsLines(comments: seq<Comment>, k: nat): (lines: seq<string>)
    requires k <= |comments|
    ensures |lines| == 3 * k
  {
    if k == 0 then [] else CommentsLines(comments, k - 1) + CommentLines(k, comments[k - 1])
  }

  /** Comment `i` (from 0) of the first `k` occupies lines `3i` to `3i+2`, numbered `i+1`. */
  lemma {:induction false} CommentsLinesAt(comments: seq<Comment>, k: nat, i: nat)
    requires i < k <= |comments|
    ensures CommentsLines(comments, k)[3 * i..3 * i + 3] == CommentLines(i + 1, comments[i])
  {
    if i < k - 1 {
      CommentsLinesAt(comments, k - 1, i);
      var prev := CommentsLines(comments, k - 1);
      assert CommentsLines(comments, k)[..3 * (k - 1)] == prev;
    }
  }

  function LabelText(labels: seq<string>, none: string): string {
    if labels != [] then Join(labels, ", ") else none
  }

  /** The fixed part of the saved file, before the comments. */
  function IssueFileHead(number: int, repoName: string, url: string, issue: Issue): (lines: seq<string>)
    ensures |lines| == 10
  {
    ["# GitHub Issue #" + IntToString(number) + ": " + issue.title,
     "\n**Repository:** " + repoName,
     "**URL:** " + url,
     "**State:** " + issue.state,
     "**Created:** " + issue.createdAt,
     "**Author:** " + issue.author,
     "\n## Labels\n",
     LabelText(issue.labels, "No labels"),
     "\n## Description\n",
     if issue.body != "" then issue.body else "(No description provided)"]
  }

  /** The heading of the comment section, which gives the total number of comments. */
  function CommentsHeading(total: nat): string {
    "\n## Comments (" + NatToString(total) + ")\n"
  }

  /** The lines of the saved file: the head, then, when there are comments, their heading and
      the first `MaxComments` of them. */
  function IssueFileLines(number: int, repoName: string, url: string, issue: Issue): seq<string> {
    IssueFileHead(number, repoName, url, issue)
      + (if issue.comments == [] then []
         else [CommentsHeading(|issue.comments|)]
              + CommentsLines(issue.comments, CopiedComments(|issue.comments|)))
  }

  /** `f"issue_{issue_number}_{uid}.md"`. */
  function IssueFilename(number: int, uid: string): string {
    "issue_" + IntToString(number) + "_" + uid + ".md"
  }

  /** The summary returned to the agent; line 4 gives the total number of comments. */
  function SummaryLines(number: int, repoName: string, issue: Issue, filename: string): (lines: seq<string>)
    ensures |lines| == 7
  {
    ["📋 Issue #" + IntToString(number) + ": " + issue.title,
     "   State: " + issue.state,
     "   Repository: " + repoName,
     "   Labels: " + LabelText(issue.labels, "None"),
     "   Comments: " + NatToString(|issue.comments|),
     "\n💾 Full details saved to: " + filename,
     "💡 Use read_file('" + filename + "') to view complete issue details"]
  }

  /** What a successful call stores: one file, and the repository it records as current. */
  datatype SavedIssue = SavedIssue(filename: string, content: string, repoName: string)

  /** The message a call returns and what, if anything, it stores. */
  datatype IssueUpdate = IssueUpdate(message: string, saved: Option<SavedIssue>)

  /** `get_issue_details` with the issue fetched by `fetchIssue(repo_name, number)` and the
      random `uid` given. */
  function IssueDetails(url: string, uid: string, fetchIssue: (string, int) -> Fetch<Issue>): (r: IssueUpdate)
    ensures r.saved.Some? ==>
              && ParseIssueUrl(url).IssueAt?
              && var ref := ParseIssueUrl(url).ref;
                 && r.saved.value.filename == IssueFilename(ref.number, uid)
                 && r.saved.value.repoName == ref.owner + "/" + ref.repo
                 && fetchIssue(ref.owner + "/" + ref.repo, ref.number).Got?
  {
    match ParseIssueUrl(url)
    case NotAnIssueUrl => IssueUpdate("Invalid GitHub issue URL: " + url, None)
    case Malformed(reason) => IssueUpdate("Error fetching issue: " + reason, None)
    case IssueAt(ref) =>
      var repoName := ref.owner + "/" + ref.repo;
      match fetchIssue(repoName, ref.number)
      case Failed(fault) => IssueUpdate(FaultText(fault, "Error fetching issue: "), None)
      case Got(issue) =>
        var filename := IssueFilename(ref.number, uid);
        IssueUpdate(JoinLines(SummaryLines(ref.number, repoName, issue, filename)),
                    Some(SavedIssue(filename, JoinLines(IssueFileLines(ref.number, repoName, url, issue)), repoName)))
  }

  /** The loop of lines 303-308 that copies the first `MaxComments` comments. */
  method RenderIssueFile(number: int, repoName: string, url: string, issue: Issue) returns (lines: seq<string>)
    ensures lines == IssueFileLines(number, repoName, url, issue)
  {
    lines := IssueFileHead(number, repoName, url, issue);
    if issue.comments != [] {
      var head := lines + [CommentsHeading(|issue.comments|)];
      var copied := CopiedComments(|issue.comments|);
      lines := head;
      var k := 0;
      while k < copied
        invariant k <= copied
        invariant lines == head + CommentsLines(issue.comments, k)
      {
        lines := lines + CommentLines(k + 1, issue.comments[k]);
        k := k + 1;
      }
    }
  }

  /** `get_issue_details`: on success the issue file is added to the files map in place and
      the current repository and issue URL are recorded; otherwise nothing changes. */
  method GetIssueDetails(state: AgentState, url: string, uid: string, fetchIssue: (string, int) -> Fetch<Issue>)
    returns (message: string)
    modifies state`files, state`currentRepo, state`issueUrl
    ensures message == IssueDetails(url, uid, fetchIssue).message
    ensures IssueDetails(url, uid, fetchIssue).saved.None? ==>
              state.files == old(state.files) && state.currentRepo == old(state.currentRepo)
              && state.issueUrl == old(state.issueUrl)
    ensures IssueDetails(url, uid, fetchIssue).saved.Some? ==>
              var saved := IssueDetails(url, uid, fetchIssue).saved.value;
              state.files == old(state.files)[saved.filename := saved.content]
              && state.currentRepo == Some(saved.repoName) && state.issueUrl == Some(url)
  {
    var parsed := ParseIssueUrl(url);
    if parsed.NotAnIssueUrl? || parsed.Malformed? {
      message := if parsed.NotAnIssueUrl? then "Invalid GitHub issue URL: " + url
                 else "Error fetching issue: " + parsed.reason;
      assert IssueDetails(url, uid, fetchIssue) == IssueUpdate(message, None);
      return;
    }
    var ref := parsed.ref;
    var repoName := ref.owner + "/" + ref.repo;
    var fetched := fetchIssue(repoName, ref.number);
    if fetched.Failed? {
      message := FaultText(fetched.fault, "Error fetching issue: ");
      assert IssueDetails(url, uid, fetchIssue) == IssueUpdate(message, None);
      return;
    }
    var issue := fetched.value;
    var lines := RenderIssueFile(ref.number, repoName, url, issue);
    var filename := IssueFilename(ref.number, uid);
    message := JoinLines(SummaryLines(ref.number, repoName, issue, filename));
    var saved := SavedIssue(filename, JoinLines(lines), repoName);
    assert IssueDetails(url, uid, fetchIssue) == IssueUpdate(message, Some(saved));
    StoreIssue(state, saved, url);
  }

  /** The state update of a successful `get_issue_details`: the issue file, then the
      issue URL and the current repository. */
  method StoreIssue(state: AgentState, saved: SavedIssue, url: string)
    modifies state`files, state`currentRepo, state`issueUrl
    ensures state.files == old(state.files)[saved.filename := saved.content]
    ensures state.currentRepo == Some(saved.repoName) && state.issueUrl == Some(url)
  {
    state.files := state.files[saved.filename := saved.content];
    state.issueUrl := Some(url);
    state.currentRepo := Some(saved.repoName);
  }

  /** Something is stored exactly when the URL parses and the issue is fetched; a rejected
      URL yields only the "Invalid GitHub issue URL" message. */
  lemma SavedOnlyOnSuccess(url: string, uid: string, fetchIssue: (string, int) -> Fetch<Issue>)
    ensures IssueDetails(url, uid, fetchIssue).saved.Some? <==>
              ParseIssueUrl(url).IssueAt? &&
              fetchIssue(ParseIssueUrl(url).ref.owner + "/" + ParseIssueUrl(url).ref.repo,
                         ParseIssueUrl(url).ref.number).Got?
    ensures ParseIssueUrl(url).NotAnIssueUrl? ==>
              IssueDetails(url, uid, fetchIssue) == IssueUpdate("Invalid GitHub issue URL: " + url, None)
    ensures ParseIssueUrl(url).Malformed? ==>
              IssueDetails(url, uid, fetchIssue) == IssueUpdate("Error fetching issue: " + ParseIssueUrl(url).reason, None)
  {
  }

  /** Fetching the issue behind a canonical link stores `issue_<n>_<uid>.md` and records
      "owner/repo" as the current repository. */
  lemma IssueLinkSaves(owner: string, repo: string, number: nat, uid: string,
                       fetchIssue: (string, int) -> Fetch<Issue>)
    requires '/' !in owner && '/' !in repo && owner != "issues" && repo != "issues"
    requires fetchIssue(owner + "/" + repo, number).Got?
    ensures var saved := IssueDetails(Errors.IssueLink(owner, repo, number), uid, fetchIssue).saved;
            saved.Some? && saved.value.filename == IssueFilename(number, uid)
            && saved.value.repoName == owner + "/" + repo
  {
    ParseIssueLink(owner, repo, number);
  }

  /** The saved file holds the first `MaxComments` comments, in order and numbered from 1,
      under a heading with the total; the summary reports the total as well. */
  lemma CommentsCapped(number: int, repoName: string, url: string, issue: Issue, filename: string)
    ensures var lines := IssueFileLines(number, repoName, url, issue);
            |lines| == 10 + (if issue.comments == [] then 0 else 1 + 3 * CopiedComments(|issue.comments|))
    ensures issue.comments != [] ==> IssueFileLines(number, repoName, url, issue)[10] == CommentsHeading(|issue.comments|)
    ensures forall i :: 0 <= i < CopiedComments(|issue.comments|) ==>
              IssueFileLines(number, repoName, url, issue)[11 + 3 * i..14 + 3 * i] == CommentLines(i + 1, issue.comments[i])
    ensures SummaryLines(number, repoName, issue, filename)[4] == "   Comments: " + NatToString(|issue.comments|)
  {
    var c := issue.comments;
    var lines := IssueFileLines(number, repoName, url, issue);
    forall i | 0 <= i < CopiedComments(|c|)
      ensures lines[11 + 3 * i..14 + 3 * i] == CommentLines(i + 1, c[i])
    {
      var k := CopiedComments(|c|);
      CommentsLinesAt(c, k, i);
      assert lines[11..] == CommentsLines(c, k);
      assert lines[11 + 3 * i..14 + 3 * i] == lines[11..][3 * i..3 * i + 3];
    }
  }

  // ---------------------------------------------------------------------------
  // search_code_in_repo

  /** One search hit; `fragment` is the fragment of its first text match, `None` when it
      has no text matches. */
  datatype CodeHit = CodeHit(path: string, repository: string, url: string, fragment: Option<string>)

  /** A search response: the reported total count, and the hits in order. */
  datatype CodeSearch = CodeSearch(total: nat, hits: seq<CodeHit>)

  /** The query sent to the search API: the caller's query restricted to the repository. */
  function FullQuery(query: string, repoName: string): string {
    query + " repo:" + repoName
  }

  const SnippetLength := 200

  /** `fragment[:200]`. */
  function Snippet(fragment: string): (r: string)
    ensures r <= fragment
    ensures |r| == if |fragment| <= SnippetLength then |fragment| else SnippetLength
    ensures |fragment| <= SnippetLength ==> r == fragment
  {
    PyTake(fragment, SnippetLength)
  }

  /** `min(total, max_results)`, the count the header reports. */
  function ReportedCount(total: nat, maxResults: int): (n: int)
    ensures n <= total && n <= maxResults && (n == total || n == maxResults)
  {
    if total < maxResults then total else maxResults
  }

  /** The first line of hit number `idx`, which names its path. */
  function HitHeadline(idx: nat, path: string): string {
    "\n" + NatToString(idx) + ". **" + path + "**"
  }

  /** The lines of hit number `idx`: a snippet line only when it has a text match. */
  function HitLines(idx: nat, hit: CodeHit): (lines: seq<string>)
    ensures |lines| >= 1 && lines[0] == HitHeadline(idx, hit.path)
  {
    [HitHeadline(idx, hit.path), "   Repository: " + hit.repository, "   URL: " + hit.url]
      + (match hit.fragment
         case Some(f) => ["   Snippet: " + Snippet(f) + "..."]
         case None => [])
  }

  /** The lines of the first `k` hits, numbered from 1. */
  function HitsLines(hits: seq<CodeHit>, k: nat): seq<string>
    requires k <= |hits|
  {
    if k == 0 then [] else HitsLines(hits, k - 1) + HitLines(k, hits[k - 1])
  }

  function SearchHeader(count: int, query: string, repoName: string): string {
    "Found " + IntToString(count) + " results for '" + query + "' in " + repoName + ":\n"
  }

  /** `results[:max_results]` on PyGithub's `PaginatedList`: the first `max_results` hits.
      A negative bound gives none, because the paginated slice stops at once instead of
      counting from the end. */
  function PageSlice<T>(hits: seq<T>, n: int): (r: seq<T>)
    ensures |r| == if n < 0 then 0 else if n < |hits| then n else |hits|
    ensures r <= hits
  {
    if n < 0 then [] else PyTake(hits, n)
  }

  /** `search_code_in_repo` with the search API as the oracle `search`. The search is for the
      query restricted to the repository; a search that reports matches answers with the
      header giving `min(total, max_results)` first. */
  function SearchCodeText(repoName: string, query: string, maxResults: int,
                          search: string -> Fetch<CodeSearch>): (r: string)
    ensures search(FullQuery(query, repoName)).Got? && search(FullQuery(query, repoName)).value.total > 0 ==>
              SearchHeader(ReportedCount(search(FullQuery(query, repoName)).value.total, maxResults), query, repoName) <= r
    ensures search(FullQuery(query, repoName)).Got? && search(FullQuery(query, repoName)).value.total == 0 ==>
              r == "No results found for query: " + query
  {
    match search(FullQuery(query, repoName))
    case Failed(fault) => FaultText(fault, "Error searching code: ")
    case Got(response) =>
      if response.total == 0 then "No results found for query: " + query
      else
        var shown := PageSlice(response.hits, maxResults);
        var lines := [SearchHeader(ReportedCount(response.total, maxResults), query, repoName)]
                     + HitsLines(shown, |shown|);
        JoinStartsWithFirst(lines, "\n");
        JoinLines(lines)
  }

  /** `search_code_in_repo`: the loop over `results[:max_results]` appending each hit. */
  method SearchCodeInRepo(repoName: string, query: string, maxResults: int,
                          search: string -> Fetch<CodeSearch>) returns (out: string)
    ensures out == SearchCodeText(repoName, query, maxResults, search)
  {
    var response := search(FullQuery(query, repoName));
    if response.Failed? {
      return FaultText(response.fault, "Error searching code: ");
    }
    if response.value.total == 0 {
      return "No results found for query: " + query;
    }
    var shown := PageSlice(response.value.hits, maxResults);
    var header := SearchHeader(ReportedCount(response.value.total, maxResults), query, repoName);
    var output := [header];
    var k := 0;
    while k < |shown|
      invariant k <= |shown|
      invariant output == [header] + HitsLines(shown, k)
    {
      output := output + HitLines(k + 1, shown[k]);
      k := k + 1;
    }
    out := JoinLines(output);
  }

  /** Every hit among the first `k` has its numbered headline among their lines. */
  lemma {:induction false} HitsLinesHaveHeadlines(hits: seq<CodeHit>, k: nat, i: nat)
    requires i < k <= |hits|
    ensures HitHeadline(i + 1, hits[i].path) in HitsLines(hits, k)
  {
    if i < k - 1 {
      HitsLinesHaveHeadlines(hits, k - 1, i);
    } else {
      assert HitLines(k, hits[k - 1])[0] in HitLines(k, hits[k - 1]);
    }
  }

  /** The answer lists at most `max_results` hits: each of the first `max_results` under its
      number, counting from 1; the header reports `min(total, max_results)`. */
  lemma SearchShowsFirstHits(repoName: string, query: string, maxResults: int,
                             search: string -> Fetch<CodeSearch>, i: nat)
    requires search(FullQuery(query, repoName)).Got?
    requires search(FullQuery(query, repoName)).value.total > 0
    requires i < |search(FullQuery(query, repoName)).value.hits| && i < maxResults
    ensures var r := search(FullQuery(query, repoName)).value;
            Contains(SearchCodeText(repoName, query, maxResults, search), HitHeadline(i + 1, r.hits[i].path))
            && Contains(SearchCodeText(repoName, query, maxResults, search),
                        SearchHeader(ReportedCount(r.total, maxResults), query, repoName))
  {
    var r := search(FullQuery(query, repoName)).value;
    var shown := PageSlice(r.hits, maxResults);
    assert shown[i] == r.hits[i];
    var lines := [SearchHeader(ReportedCount(r.total, maxResults), query, repoName)] + HitsLines(shown, |shown|);
    assert SearchCodeText(repoName, query, maxResults, search) == JoinLines(lines);
    HitsLinesHaveHeadlines(shown, |shown|, i);
    var j :| 0 <= j < |HitsLines(shown, |shown|)| && HitsLines(shown, |shown|)[j] == HitHeadline(i + 1, r.hits[i].path);
    assert lines[j + 1] == HitHeadline(i + 1, r.hits[i].path);
    JoinContainsPart(lines, "\n", j + 1);
    JoinContainsPart(lines, "\n", 0);
  }

  /** A negative `max_results` shows no hit: the answer is the header alone. */
  lemma NegativeBoundShowsNoHits(repoName: string, query: string, maxResults: int,
                                 search: string -> Fetch<CodeSearch>)
    requires search(FullQuery(query, repoName)).Got? && search(FullQuery(query, repoName)).value.total > 0
    requires maxResults < 0
    ensures SearchCodeText(repoName, query, maxResults, search)
         == SearchHeader(ReportedCount(search(FullQuery(query, repoName)).value.total, maxResults), query, repoName)
  {
    var r := search(FullQuery(query, repoName)).value;
    var header := SearchHeader(ReportedCount(r.total, maxResults), query, repoName);
    assert [header] + HitsLines(PageSlice(r.hits, maxResults), 0) == [header];
    assert JoinLines([header]) == header;
  }

  /** A search reporting no matches answers with the query alone. */
  lemma NoResultsNamesQuery(repoName: string, query: string, maxResults: int, search: string -> Fetch<CodeSearch>)
    requires search(FullQuery(query, repoName)) == Got(CodeSearch(0, []))
    ensures SearchCodeText(repoName, query, maxResults, search) == "No results found for query: " + query
  {
  }

  // ---------------------------------------------------------------------------
  // read_file_from_repo

  /** What `get_contents` finds at a path: a file, with its size and the outcome of
      decoding its base64 content as UTF-8 (the text, or the exception's text), or a
      directory (a list of entries). */
  datatype RepoEntry = FileEntry(content: Result<string, string>, size: nat) | DirectoryEntry

  /** The branches tried, in order, when the requested ref gives a 404. */
  const AlternativeRefs := ["master", "main", "develop"]

  /** The `for ... else` loop of lines 111-120: the position of the first ref other than
      `ref` whose fetch succeeds, or `None` when every one of them fails. */
  function FirstAvailable(refs: seq<string>, ref: string, getAt: string -> Fetch<RepoEntry>): (r: Option<nat>)
    ensures r.Some? ==> r.value < |refs| && refs[r.value] != ref && getAt(refs[r.value]).Got?
    ensures r.Some? ==> forall j :: 0 <= j < r.value ==> refs[j] == ref || getAt(refs[j]).Failed?
    ensures r.None? ==> forall j :: 0 <= j < |refs| ==> refs[j] == ref || getAt(refs[j]).Failed?
    decreases |refs|
  {
    if refs == [] then None
    else if refs[0] != ref && getAt(refs[0]).Got? then Some(0)
    else match FirstAvailable(refs[1..], ref, getAt)
      case None => None
      case Some(i) => Some(i + 1)
  }

  /** The first ref that is not `ref` and succeeds is the one the fallback takes. */
  lemma FirstAvailableAt(refs: seq<string>, ref: string, getAt: string -> Fetch<RepoEntry>, k: nat)
    requires k < |refs| && refs[k] != ref && getAt(refs[k]).Got?
    requires forall j :: 0 <= j < k ==> refs[j] == ref || getAt(refs[j]).Failed?
    ensures FirstAvailable(refs, ref, getAt) == Some(k)
  {
  }

  /** The answer for what was found under the ref `ref`: the directory test comes first,
      then the decoding, whose failure is reported as an error reading the file. */
  function RenderEntry(repoName: string, filePath: string, ref: string, entry: RepoEntry): string {
    match entry
    case DirectoryEntry => "Error: " + filePath + " is a directory, not a file"
    case FileEntry(Err(e), _) => "Error reading file: " + e
    case FileEntry(Ok(content), size) =>
      JoinLines(["# File: " + filePath, "Repository: " + repoName, "Branch/Ref: " + ref,
                 "Size: " + NatToString(size) + " bytes", "\n" + Repeat('=', 60) + "\n", content])
  }

  function NotFoundText(filePath: string, ref: string): string {
    "File not found: " + filePath + " (tried ref: " + ref + ")"
  }

  /** `read_file_from_repo` with the repository lookup's outcome `lookup` (`None` when it
      succeeds) and `getAt(r)` what `get_contents` gives for the path under ref `r`. Only a
      404 from the requested ref starts the fallback; any other exception is reported. After
      a 404 the answer is "File not found" or what a ref other than the requested one gave. */
  function ReadFileText(repoName: string, filePath: string, ref: string, lookup: Option<Fault>,
                        getAt: string -> Fetch<RepoEntry>): (r: string)
    ensures lookup.None? && getAt(ref).Failed? && getAt(ref).fault.ApiFault? && getAt(ref).fault.status == 404 ==>
              r == NotFoundText(filePath, ref)
              || exists k :: 0 <= k < |AlternativeRefs| && AlternativeRefs[k] != ref && getAt(AlternativeRefs[k]).Got?
                             && r == RenderEntry(repoName, filePath, AlternativeRefs[k], getAt(AlternativeRefs[k]).value)
  {
    if lookup.Some? then FaultText(lookup.value, "Error reading file: ")
    else match getAt(ref)
      case Got(entry) => RenderEntry(repoName, filePath, ref, entry)
      case Failed(fault) =>
        if fault.ApiFault? && fault.status == 404 then
          match FirstAvailable(AlternativeRefs, ref, getAt)
          case None => NotFoundText(filePath, ref)
          case Some(i) =>
            assert AlternativeRefs[i] != ref && getAt(AlternativeRefs[i]).Got?;
            RenderEntry(repoName, filePath, AlternativeRefs[i], getAt(AlternativeRefs[i]).value)
        else FaultText(fault, "Error reading file: ")
  }

  /** `read_file_from_repo`, with the fallback as a loop that stops at the first success. */
  method ReadFileFromRepo(repoName: string, filePath: string, ref: string, lookup: Option<Fault>,
                          getAt: string -> Fetch<RepoEntry>) returns (out: string)
    ensures out == ReadFileText(repoName, filePath, ref, lookup, getAt)
  {
    if lookup.Some? {
      return FaultText(lookup.value, "Error reading file: ");
    }
    var first := getAt(ref);
    if first.Got? {
      return RenderEntry(repoName, filePath, ref, first.value);
    }
    if !(first.fault.ApiFault? && first.fault.status == 404) {
      return FaultText(first.fault, "Error reading file: ");
    }
    var k := 0;
    while k < |AlternativeRefs|
      invariant k <= |AlternativeRefs|
      invariant forall j :: 0 <= j < k ==> AlternativeRefs[j] == ref || getAt(AlternativeRefs[j]).Failed?
    {
      var alt := AlternativeRefs[k];
      if alt != ref {
        var fetched := getAt(alt);
        if fetched.Got? {
          FirstAvailableAt(AlternativeRefs, ref, getAt, k);
          return RenderEntry(repoName, filePath, alt, fetched.value);
        }
      }
      k := k + 1;
    }
    out := NotFoundText(filePath, ref);
  }

  /** The fallback tries "master", "main", "develop" in that order, skips the requested ref,
      and reports the ref that succeeded: asked for "main", it takes "develop" when "master"
      fails too, and never asks for "main" again. */
  lemma FallbackSkipsRequestedRef(repoName: string, filePath: string, getAt: string -> Fetch<RepoEntry>,
                                  entry: RepoEntry)
    requires getAt("main").Failed? && getAt("main").fault.ApiFault? && getAt("main").fault.status == 404
    requires getAt("master").Failed? && getAt("develop") == Got(entry)
    ensures ReadFileText(repoName, filePath, "main", None, getAt) == RenderEntry(repoName, filePath, "develop", entry)
  {
    FirstAvailableAt(AlternativeRefs, "main", getAt, 2);
  }

  /** Asked for any other ref that gives a 404, a readable "master" wins. */
  lemma FallbackPrefersMaster(repoName: string, filePath: string, ref: string,
                              getAt: string -> Fetch<RepoEntry>, entry: RepoEntry)
    requires ref != "master" && getAt("master") == Got(entry)
    requires getAt(ref).Failed? && getAt(ref).fault.ApiFault? && getAt(ref).fault.status == 404
    ensures ReadFileText(repoName, filePath, ref, None, getAt) == RenderEntry(repoName, filePath, "master", entry)
  {
    FirstAvailableAt(AlternativeRefs, ref, getAt, 0);
  }

  /** When `get_contents` fails for every alternative, the answer is "File not found",
      naming the requested ref. */
  lemma FallbackExhausted(repoName: string, filePath: string, ref: string, getAt: string -> Fetch<RepoEntry>)
    requires getAt(ref).Failed? && getAt(ref).fault.ApiFault? && getAt(ref).fault.status == 404
    requires forall r :: r in AlternativeRefs && r != ref ==> getAt(r).Failed?
    ensures ReadFileText(repoName, filePath, ref, None, getAt) == NotFoundText(filePath, ref)
  {
    assert forall j :: 0 <= j < |AlternativeRefs| ==> AlternativeRefs[j] in AlternativeRefs;
  }

  /** Content that does not decode stops the fallback like any content found: the error is
      reported, whether at the requested ref or at the alternative the loop took. */
  lemma DecodeFailureIsReported(repoName: string, filePath: string, ref: string,
                                getAt: string -> Fetch<RepoEntry>, e: string, size: nat)
    ensures getAt(ref) == Got(FileEntry(Err(e), size)) ==>
              ReadFileText(repoName, filePath, ref, None, getAt) == "Error reading file: " + e
    ensures ref != "master" && getAt(ref).Failed? && getAt(ref).fault.ApiFault? && getAt(ref).fault.status == 404
            && getAt("master") == Got(FileEntry(Err(e), size)) ==>
              ReadFileText(repoName, filePath, ref, None, getAt) == "Error reading file: " + e
  {
    if ref != "master" && getAt("master").Got? {
      FirstAvailableAt(AlternativeRefs, ref, getAt, 0);
    }
  }

  /** Only a 404 starts the fallback: after any other failure, or a success, of the requested
      ref the other branches play no part in the answer. */
  lemma OnlyNotFoundFallsBack(repoName: string, filePath: string, ref: string,
                              getAt: string -> Fetch<RepoEntry>, getAt': string -> Fetch<RepoEntry>)
    requires getAt(ref) == getAt'(ref)
    requires !(getAt(ref).Failed? && getAt(ref).fault.ApiFault? && getAt(ref).fault.status == 404)
    ensures ReadFileText(repoName, filePath, ref, None, getAt) == ReadFileText(repoName, filePath, ref, None, getAt')
  {
  }

  // ---------------------------------------------------------------------------
  // get_repository_info

  function InvalidNameText(error: string): string {
    "❌ Invalid repository name\n\n" + error
  }

  /** `get_repository_info` with `fetchInfo(name)` the rendered metadata of the repository or
      the exception the lookup raised. The name is validated before any lookup. */
  function RepositoryInfo(repoName: string, fetchInfo: string -> Fetch<string>): (r: string)
    ensures !Errors.ValidateRepoName(repoName).0 ==> r == InvalidNameText(Errors.ValidateRepoName(repoName).1)
    ensures Errors.ValidateRepoName(repoName).0 && fetchInfo(repoName).Got? ==> r == fetchInfo(repoName).value
  {
    var (valid, error) := Errors.ValidateRepoName(repoName);
    if !valid then InvalidNameText(error)
    else match fetchInfo(repoName)
      case Got(info) => info
      case Failed(ApiFault(_, _, text)) =>
        Errors.HandleGithubError(text, "Fetching info for repository '" + repoName + "'")
      case Failed(OtherFault(text)) =>
        "❌ Unexpected error: " + text + "\n\n💡 Suggestion: Please report this error if it persists"
  }

  /** A name that is not "owner/repo" is refused with the validator's message whatever the
      API would have said; a well-formed name is looked up. */
  lemma RepositoryInfoValidatesFirst(repoName: string, fetchInfo: string -> Fetch<string>)
    ensures (forall o, r :: !Errors.IsOwnerRepo(repoName, o, r)) ==>
              RepositoryInfo(repoName, fetchInfo) == InvalidNameText(Errors.ValidateRepoName(repoName).1)
    ensures (exists o, r :: Errors.IsOwnerRepo(repoName, o, r)) && fetchInfo(repoName).Got? ==>
              RepositoryInfo(repoName, fetchInfo) == fetchInfo(repoName).value
  {
    Errors.ValidateRepoNameIff(repoName);
  }
}
