/** The web-search tools (github_agent/src/tools/search_tools.py): the per-result
    processing that turns search hits into named summaries, the tool that stores them as
    files, and the reflection echo. The search service, the page fetch, the HTML-to-markdown
    conversion, the summarising model and the random ids are parameters. */
module SearchTools {
  import opened Wrappers
  import opened Text
  import opened State

  // ---------------------------------------------------------------------------
  // File names: os.path.splitext and the unique suffix

  /** `os.path.splitext(p)` with `/` as separator: the extension starts at the last dot of
      the last path component, unless only dots come before it in that component. */
  function SplitExt(p: string): (r: (string, string))
    ensures r.0 + r.1 == p
  {
    var sep := RFind(p, '/');
    var dot := RFind(p, '.');
    if sep < dot && NonDotBetween(p, sep + 1, dot) then (p[..dot], p[dot..])
    else (p, [])
  }

  /** The scan of `splitext` over the leading dots of the last component: some character
      in `p[lo..hi]` is not a dot. */
  predicate NonDotBetween(p: string, lo: int, hi: int)
    requires 0 <= lo <= hi <= |p|
    decreases hi - lo
  {
    lo < hi && (p[lo] != '.' || NonDotBetween(p, lo + 1, hi))
  }

  lemma {:induction false} NonDotBetweenIff(p: string, lo: int, hi: int)
    requires 0 <= lo <= hi <= |p|
    ensures NonDotBetween(p, lo, hi) <==> exists i :: lo <= i < hi && p[i] != '.'
    decreases hi - lo
  {
    if lo < hi {
      NonDotBetweenIff(p, lo + 1, hi);
    }
  }

  /** The two parts make up the name, and the extension is empty or a dot followed by
      neither dots nor slashes. */
  lemma SplitExtSpec(p: string)
    ensures SplitExt(p).0 + SplitExt(p).1 == p
    ensures var ext := SplitExt(p).1; ext == [] || (ext[0] == '.' && '/' !in ext && '.' !in ext[1..])
  {
    RFindSpec(p, '/');
    RFindSpec(p, '.');
    var dot := RFind(p, '.');
    if SplitExt(p).1 != [] {
      assert SplitExt(p).1 == p[dot..];
      assert forall j :: 0 <= j < |p[dot..]| ==> p[dot..][j] == p[dot + j];
    }
  }

  /** A name whose last component has a character other than a dot before an extension
      without dots splits into exactly that name and extension. */
  lemma SplitExtOfStemAndExt(stem: string, ext: string)
    requires '/' !in stem && exists i :: 0 <= i < |stem| && stem[i] != '.'
    requires |ext| >= 1 && ext[0] == '.' && '/' !in ext && '.' !in ext[1..]
    ensures SplitExt(stem + ext) == (stem, ext)
  {
    var p := stem + ext;
    assert forall j :: 0 <= j < |p| ==> p[j] != '/' by {
      forall j | 0 <= j < |p| ensures p[j] != '/' {
        if j < |stem| { assert p[j] == stem[j]; } else { assert p[j] == ext[j - |stem|]; }
      }
    }
    assert p[|stem|] == '.';
    assert forall j :: |stem| < j < |p| ==> p[j] != '.' by {
      forall j | |stem| < j < |p| ensures p[j] != '.' {
        assert p[j] == ext[1..][j - |stem| - 1];
      }
    }
    RFindSpec(p, '/');
    RFindSpec(p, '.');
    assert RFind(p, '/') == -1;
    assert RFind(p, '.') == |stem|;
    var i :| 0 <= i < |stem| && stem[i] != '.';
    assert p[i] != '.';
    NonDotBetweenIff(p, 0, |stem|);
    assert p[..|stem|] == stem && p[|stem|..] == ext;
  }

  /** A hidden file name such as `.env` has no extension. */
  lemma HiddenNameHasNoExt(rest: string)
    requires '.' !in rest && '/' !in rest
    ensures SplitExt("." + rest) == ("." + rest, "")
  {
    var p := "." + rest;
    assert p[0] == '.';
    assert forall j :: 0 < j < |p| ==> p[j] == rest[j - 1] && p[j] != '.';
    RFindSpec(p, '.');
    assert RFind(p, '.') == 0;
  }

  /** `f"{name}_{uid}{ext}"` after `name, ext = os.path.splitext(filename)`. */
  function Uniquify(filename: string, uid: string): (r: string)
    ensures |r| == |filename| + 1 + |uid|
  {
    var parts := SplitExt(filename);
    parts.0 + "_" + uid + parts.1
  }

  /** The suffix keeps the extension in place, and ids of one length give one name for
      each id. */
  lemma UniquifyKeepsExtension(filename: string, uid: string)
    ensures Uniquify(filename, uid) == SplitExt(filename).0 + "_" + uid + SplitExt(filename).1
    ensures forall other :: |other| == |uid| && Uniquify(filename, other) == Uniquify(filename, uid) ==> other == uid
  {
    var name := SplitExt(filename).0;
    forall other | |other| == |uid| && Uniquify(filename, other) == Uniquify(filename, uid)
      ensures other == uid
    {
      assert Uniquify(filename, other)[|name| + 1..|name| + 1 + |uid|] == other;
      assert Uniquify(filename, uid)[|name| + 1..|name| + 1 + |uid|] == uid;
    }
  }

  /** A `.md` name without other dots or slashes gets the id just before `.md`. */
  lemma MdNameGetsId(name: string, stem: string, uid: string)
    requires name == stem + ".md"
    requires |stem| >= 1 && stem[0] != '.' && '.' !in stem && '/' !in stem
    ensures Uniquify(name, uid) == stem + "_" + uid + ".md"
  {
    assert ".md"[1..] == "md";
    SplitExtOfStemAndExt(stem, ".md");
  }

  /** The fixed names of the summaries made without the model. */
  const UrlErrorName := "url_error.md"
  const ConnectionErrorName := "connection_error.md"
  const FallbackName := "search_result.md"

  // ---------------------------------------------------------------------------
  // Summaries

  /** The `Summary` schema the summarising model fills in. */
  datatype Summary = Summary(filename: string, summary: string)

  /** How much of a page the summarising model is shown. */
  const PromptLength := 4000
  /** How much of a page the fallback summary keeps. */
  const FallbackLength := 500

  /** The fallback of `summarize_webpage_content`, used when the model raises. */
  function FallbackSummary(content: string): (r: Summary)
    ensures r.filename == FallbackName
    ensures |content| <= FallbackLength ==> r.summary == content
    ensures |content| > FallbackLength ==>
              |r.summary| == FallbackLength + 3 && r.summary[..FallbackLength] == content[..FallbackLength]
              && r.summary[FallbackLength..] == "..."
  {
    Summary(FallbackName, if |content| > FallbackLength then content[..FallbackLength] + "..." else content)
  }

  /** What the structured-output model call gives: a `Summary`, no object at all, or an
      exception. */
  datatype ModelReply = Structured(summary: Summary) | NoObject | ModelRaised

  /** `summarize_webpage_content(content)`: the model's prompt holds the first 4000
      characters and today's date. When the model raises, the fallback summary is used;
      `None` is the model returning no object, which the function passes on. */
  function Summarize(content: string, today: string, model: (string, string) -> ModelReply): Option<Summary> {
    match model(PyTake(content, PromptLength), today)
    case Structured(s) => Some(s)
    case NoObject => None
    case ModelRaised => Some(FallbackSummary(content))
  }

  // ---------------------------------------------------------------------------
  // process_search_results

  /** One entry of the search service's `results` list; `None` is a missing key. */
  datatype SearchHit = SearchHit(url: Option<string>, title: Option<string>, content: Option<string>)

  /** The page fetch: a response with its status, a timeout or request error (the exceptions
      the per-result handler catches), or another exception with its text, such as
      `httpx.InvalidURL`, which the handler does not catch. */
  datatype PageFetch = Page(status: int, text: string) | Unreachable | Raised(error: string)

  /** The outside world of `process_search_results`: the HTTP client, `markdownify` (which
      gives the text of its exception when it raises), the summarising model (given the page
      head and the date), the date `get_today_str()` gives while the results are summarised,
      and the id drawn for the result at each position. */
  datatype Web = Web(
    fetch: string -> PageFetch,
    markdown: string -> Result<string, string>,
    model: (string, string) -> ModelReply,
    today: string,
    uid: nat -> string)

  /** A dictionary of `processed`. */
  datatype Processed = Processed(url: string, title: string, summary: string, filename: string, rawContent: string)

  /** `str(KeyError('url'))`. */
  const MissingUrlText := "'url'"
  /** The text of the `AttributeError` raised by `summary_obj.filename` when the model gave
      no object. */
  const NoSummaryText := "'NoneType' object has no attribute 'filename'"

  /** The raw content and the summary for one hit, by how its page fetch went, or the text of
      the exception that escapes the per-result handler. */
  function Fetched(hit: SearchHit, url: string, web: Web): Result<(string, Summary), string> {
    match web.fetch(url)
    case Page(status, text) =>
      if status == 200 then
        match web.markdown(text)
        case Err(e) => Err(e)
        case Ok(raw) =>
          match Summarize(raw, web.today, web.model)
          case Some(s) => Ok((raw, s))
          case None => Err(NoSummaryText)
      else
        Ok((hit.content.GetOr(""), Summary(UrlErrorName, hit.content.GetOr("Error fetching URL"))))
    case Unreachable =>
      Ok((hit.content.GetOr(""), Summary(ConnectionErrorName, hit.content.GetOr("Connection error"))))
    case Raised(e) => Err(e)
  }

  /** The body of the loop of `process_search_results` for the hit at position `k`: its entry,
      or the text of the exception that ends the whole call. */
  function ProcessOne(hit: SearchHit, k: nat, web: Web): Result<Processed, string> {
    match hit.url
    case None => Err(MissingUrlText)
    case Some(url) =>
      match Fetched(hit, url, web)
      case Err(e) => Err(e)
      case Ok(fetched) =>
        Ok(Processed(url, hit.title.GetOr("No title"), fetched.1.summary,
                     Uniquify(fetched.1.filename, web.uid(k)), fetched.0))
  }

  /** The entries for the first `n` hits, in order, or the first exception among them. */
  function ProcessPrefix(hits: seq<SearchHit>, n: nat, web: Web): (r: Result<seq<Processed>, string>)
    requires n <= |hits|
    ensures r.Ok? <==> forall j :: 0 <= j < n ==> ProcessOne(hits[j], j, web).Ok?
    ensures r.Ok? ==> |r.value| == n
  {
    if n == 0 then Ok([])
    else
      match ProcessPrefix(hits, n - 1, web)
      case Err(e) => Err(e)
      case Ok(ps) =>
        match ProcessOne(hits[n - 1], n - 1, web)
        case Err(e) => Err(e)
        case Ok(p) => Ok(ps + [p])
  }

  /** What `process_search_results` returns, or the text of the exception it raises. */
  function ProcessAll(hits: seq<SearchHit>, web: Web): (r: Result<seq<Processed>, string>)
    ensures r.Ok? <==> forall i :: 0 <= i < |hits| ==> ProcessOne(hits[i], i, web).Ok?
    ensures r.Ok? ==> |r.value| == |hits|
  {
    ProcessPrefix(hits, |hits|, web)
  }

  /** `process_search_results(results)`, over the `results` list. */
  method ProcessSearchResults(hits: seq<SearchHit>, web: Web) returns (processed: Result<seq<Processed>, string>)
    ensures processed == ProcessAll(hits, web)
  {
    var done: seq<Processed> := [];
    var i := 0;
    while i < |hits|
      invariant 0 <= i <= |hits|
      invariant ProcessPrefix(hits, i, web) == Ok(done)
    {
      var one := ProcessOne(hits[i], i, web);
      if one.Err? {
        FailureEndsAll(hits, i, web, done, one);
        return Err(one.error);
      }
      ProcessPrefixStep(hits, i, web, done, one);
      done := done + [one.value];
      i := i + 1;
    }
    return Ok(done);
  }

  /** One more hit either fails the prefix with its exception or adds its entry. */
  lemma ProcessPrefixStep(hits: seq<SearchHit>, i: nat, web: Web, done: seq<Processed>, one: Result<Processed, string>)
    requires i < |hits| && ProcessPrefix(hits, i, web) == Ok(done) && one == ProcessOne(hits[i], i, web)
    ensures ProcessPrefix(hits, i + 1, web) == if one.Err? then Err(one.error) else Ok(done + [one.value])
  {
  }

  /** A hit that fails after a successful prefix ends the whole call with its exception. */
  lemma FailureEndsAll(hits: seq<SearchHit>, i: nat, web: Web, done: seq<Processed>, one: Result<Processed, string>)
    requires i < |hits| && ProcessPrefix(hits, i, web) == Ok(done) && one == ProcessOne(hits[i], i, web)
    requires one.Err?
    ensures ProcessAll(hits, web) == Err(one.error)
  {
    ProcessPrefixStep(hits, i, web, done, one);
    ErrorStays(hits, i + 1, |hits|, web);
  }

  /** Once a prefix has failed, every longer prefix fails with the same exception. */
  lemma {:induction false} ErrorStays(hits: seq<SearchHit>, j: nat, n: nat, web: Web)
    requires j <= n <= |hits| && ProcessPrefix(hits, j, web).Err?
    ensures ProcessPrefix(hits, n, web) == ProcessPrefix(hits, j, web)
    decreases n - j
  {
    if j < n {
      ErrorStays(hits, j + 1, n, web);
    }
  }

  /** A failing call reports the exception of its first failing hit. */
  lemma {:induction false} FirstFailureIsReported(hits: seq<SearchHit>, n: nat, web: Web)
    requires n <= |hits| && ProcessPrefix(hits, n, web).Err?
    ensures exists j :: 0 <= j < n && ProcessOne(hits[j], j, web) == Err(ProcessPrefix(hits, n, web).error)
                        && forall l :: 0 <= l < j ==> ProcessOne(hits[l], l, web).Ok?
  {
    var before := ProcessPrefix(hits, n - 1, web);
    if before.Err? {
      assert ProcessPrefix(hits, n, web) == before;
      FirstFailureIsReported(hits, n - 1, web);
    } else {
      var one := ProcessOne(hits[n - 1], n - 1, web);
      assert one.Err? && ProcessPrefix(hits, n, web) == Err(one.error);
      assert forall l :: 0 <= l < n - 1 ==> ProcessOne(hits[l], l, web).Ok?;
    }
  }

  /** Entry `j` of a prefix is the processing of hit `j`. */
  lemma {:induction false} ProcessPrefixAt(hits: seq<SearchHit>, n: nat, web: Web, j: int)
    requires n <= |hits| && ProcessPrefix(hits, n, web).Ok?
    requires 0 <= j < n
    ensures ProcessOne(hits[j], j, web).Ok? && ProcessPrefix(hits, n, web).value[j] == ProcessOne(hits[j], j, web).value
  {
    if j < n - 1 {
      ProcessPrefixAt(hits, n - 1, web, j);
    }
  }

  /** A hit fails the whole call exactly when it has no address, its fetch raises an
      exception the handler does not catch, or its page answers 200 and then `markdownify`
      raises or the model gives no object; the call then raises with that exception's text. */
  lemma HitFailsIff(hit: SearchHit, k: nat, web: Web)
    ensures var r := ProcessOne(hit, k, web);
            (hit.url.None? ==> r == Err(MissingUrlText))
            && (hit.url.Some? ==>
                  var fetch := web.fetch(hit.url.value);
                  (fetch.Raised? ==> r == Err(fetch.error))
                  && (fetch.Page? && fetch.status == 200 ==>
                        var md := web.markdown(fetch.text);
                        (md.Err? ==> r == Err(md.error))
                        && (md.Ok? && web.model(PyTake(md.value, PromptLength), web.today).NoObject? ==>
                              r == Err(NoSummaryText))
                        && (md.Ok? && !web.model(PyTake(md.value, PromptLength), web.today).NoObject? ==> r.Ok?))
                  && (fetch.Unreachable? || (fetch.Page? && fetch.status != 200) ==> r.Ok?))
  {
  }

  /** One entry per hit, in order, keeping each hit's address and title; it fails exactly
      when some hit fails, with the exception of the first one. */
  lemma ProcessingKeepsEachHit(hits: seq<SearchHit>, web: Web)
    ensures ProcessAll(hits, web).Err? <==> exists i :: 0 <= i < |hits| && ProcessOne(hits[i], i, web).Err?
    ensures ProcessAll(hits, web).Err? ==>
              exists i :: 0 <= i < |hits| && ProcessOne(hits[i], i, web) == Err(ProcessAll(hits, web).error)
                          && forall l :: 0 <= l < i ==> ProcessOne(hits[l], l, web).Ok?
    ensures ProcessAll(hits, web).Ok? ==>
              var ps := ProcessAll(hits, web).value;
              |ps| == |hits|
              && forall i :: 0 <= i < |hits| ==>
                   Some(ps[i].url) == hits[i].url && ps[i].title == hits[i].title.GetOr("No title")
                   && Fetched(hits[i], ps[i].url, web).Ok?
                   && ps[i].filename == Uniquify(Fetched(hits[i], ps[i].url, web).value.1.filename, web.uid(i))
  {
    if ProcessAll(hits, web).Err? {
      FirstFailureIsReported(hits, |hits|, web);
    } else {
      var ps := ProcessAll(hits, web).value;
      forall i | 0 <= i < |hits|
        ensures ProcessOne(hits[i], i, web).Ok? && ps[i] == ProcessOne(hits[i], i, web).value
      {
        ProcessPrefixAt(hits, |hits|, web, i);
      }
    }
  }

  /** A page that does not answer 200 falls back to the search service's own snippet, under
      `url_error_<id>.md`. */
  lemma UnansweredPageUsesSnippet(hit: SearchHit, k: nat, web: Web)
    requires hit.url.Some? && web.fetch(hit.url.value).Page? && web.fetch(hit.url.value).status != 200
    ensures var r := ProcessOne(hit, k, web);
            r.Ok? && r.value.summary == hit.content.GetOr("Error fetching URL") && r.value.rawContent == hit.content.GetOr("")
            && r.value.filename == "url_error_" + web.uid(k) + ".md"
  {
    assert Fetched(hit, hit.url.value, web) == Ok((hit.content.GetOr(""), Summary(UrlErrorName, hit.content.GetOr("Error fetching URL"))));
    MdNameGetsId(UrlErrorName, "url_error", web.uid(k));
  }

  /** A page that cannot be reached falls back to the snippet too, under
      `connection_error_<id>.md`. */
  lemma UnreachablePageUsesSnippet(hit: SearchHit, k: nat, web: Web)
    requires hit.url.Some? && web.fetch(hit.url.value).Unreachable?
    ensures var r := ProcessOne(hit, k, web);
            r.Ok? && r.value.summary == hit.content.GetOr("Connection error") && r.value.rawContent == hit.content.GetOr("")
            && r.value.filename == "connection_error_" + web.uid(k) + ".md"
  {
    assert Fetched(hit, hit.url.value, web) == Ok((hit.content.GetOr(""), Summary(ConnectionErrorName, hit.content.GetOr("Connection error"))));
    MdNameGetsId(ConnectionErrorName, "connection_error", web.uid(k));
  }

  /** A page that answers 200 is converted and summarised from its head and the date; when
      the model raises, the summary is the head of the converted page, under
      `search_result_<id>.md`. */
  lemma FetchedPageIsSummarised(hit: SearchHit, k: nat, web: Web)
    requires hit.url.Some?
    requires web.fetch(hit.url.value).Page? && web.fetch(hit.url.value).status == 200
    requires web.markdown(web.fetch(hit.url.value).text).Ok?
    ensures var raw := web.markdown(web.fetch(hit.url.value).text).value;
            var reply := web.model(PyTake(raw, PromptLength), web.today);
            var r := ProcessOne(hit, k, web);
            (reply.Structured? ==> r.Ok? && r.value.rawContent == raw && r.value.summary == reply.summary.summary)
            && (reply.ModelRaised? ==>
                  r.Ok? && r.value.rawContent == raw && r.value.summary == FallbackSummary(raw).summary
                  && r.value.filename == "search_result_" + web.uid(k) + ".md")
  {
    var raw := web.markdown(web.fetch(hit.url.value).text).value;
    var reply := web.model(PyTake(raw, PromptLength), web.today);
    if reply.Structured? {
      assert Fetched(hit, hit.url.value, web) == Ok((raw, reply.summary));
    } else if reply.ModelRaised? {
      assert Fetched(hit, hit.url.value, web) == Ok((raw, FallbackSummary(raw)));
      MdNameGetsId(FallbackName, "search_result", web.uid(k));
    }
  }

  // ---------------------------------------------------------------------------
  // search_error_solution

  const QuerySuffix := " programming error solution"

  /** The query: the library name, when given, then the error, then a fixed suffix. */
  function SearchQuery(error: string, library: string): (q: string)
    ensures |q| >= |QuerySuffix| && q[|q| - |QuerySuffix|..] == QuerySuffix
    ensures library == "" ==> |q| == |error| + |QuerySuffix| && q[..|error|] == error
    ensures library != "" ==>
              |q| == |library| + 1 + |error| + |QuerySuffix|
              && q[..|library| + 1] == library + " " && q[|library| + 1..|library| + 1 + |error|] == error
  {
    (if library != "" then library + " " + error else error) + QuerySuffix
  }

  /** The file written for one processed result. */
  function FileContent(p: Processed, query: string, today: string): string {
    "# Search Result: " + p.title + "\n\n**URL:** " + p.url + "\n**Query:** " + query
    + "\n**Date:** " + today + "\n\n## Summary\n" + p.summary + "\n\n## Full Content\n"
    + (if p.rawContent != "" then p.rawContent else "No content available") + "\n"
  }

  /** The line reporting one saved result: its first 100 summary characters. */
  function SummaryLine(p: Processed): string {
    "- **" + p.filename + "**: " + PyTake(p.summary, 100) + "..."
  }

  function Filenames(ps: seq<Processed>): seq<string> {
    seq(|ps|, i requires 0 <= i < |ps| => ps[i].filename)
  }

  function SummaryLines(ps: seq<Processed>): seq<string> {
    seq(|ps|, i requires 0 <= i < |ps| => SummaryLine(ps[i]))
  }

  function FoundHeader(error: string, count: nat): string {
    "🔍 Found " + NatToString(count) + " results for error: \"" + PyTake(error, 50) + "...\"\n\n"
  }

  const FilesSavedLabel := "\n\n**Files saved:** "
  const ReadHint := "\n💡 Use read_file('filename') to access full details when needed.\n"

  /** The message of a successful search. */
  function ResultText(error: string, ps: seq<Processed>): string {
    FoundHeader(error, |ps|) + JoinLines(SummaryLines(ps)) + FilesSavedLabel + Join(Filenames(ps), ", ") + ReadHint
  }

  /** The message when the search or the processing raises. */
  function ErrorText(text: string): string {
    "❌ Error performing search: " + text
  }

  /** The files after the saving loop: each result in order, a later one overwriting an
      earlier one of the same name. */
  function WriteAll(files: map<string, string>, ps: seq<Processed>, query: string, today: string): (r: map<string, string>)
    ensures files.Keys <= r.Keys
    ensures ps != [] ==> ps[|ps| - 1].filename in r && r[ps[|ps| - 1].filename] == FileContent(ps[|ps| - 1], query, today)
    decreases |ps|
  {
    if ps == [] then files
    else WriteAll(files, ps[..|ps| - 1], query, today)[ps[|ps| - 1].filename := FileContent(ps[|ps| - 1], query, today)]
  }

  /** The processed results, or the text of the exception that ends the tool. */
  function SearchOutcome(error: string, library: string, maxResults: int,
                         search: (string, int) -> Result<seq<SearchHit>, string>, web: Web): Result<seq<Processed>, string> {
    match search(SearchQuery(error, library), maxResults)
    case Err(text) => Err(text)
    case Ok(hits) =>
      ProcessAll(hits, web)
  }

  /** The search fails with the exception of the first hit that fails; in particular a first
      hit whose fetch raises an exception the per-result handler does not catch (an
      invalid URL, say) ends the tool with that exception's text. */
  lemma FailingHitEndsSearch(error: string, library: string, maxResults: int,
                             search: (string, int) -> Result<seq<SearchHit>, string>, web: Web, hits: seq<SearchHit>)
    requires search(SearchQuery(error, library), maxResults) == Ok(hits)
    ensures SearchOutcome(error, library, maxResults, search, web).Err? <==>
              exists i :: 0 <= i < |hits| && ProcessOne(hits[i], i, web).Err?
    ensures |hits| > 0 && hits[0].url.Some? && web.fetch(hits[0].url.value).Raised? ==>
              SearchOutcome(error, library, maxResults, search, web) == Err(web.fetch(hits[0].url.value).error)
  {
    if |hits| > 0 && ProcessOne(hits[0], 0, web).Err? {
      assert ProcessPrefix(hits, 1, web) == Err(ProcessOne(hits[0], 0, web).error);
      ErrorStays(hits, 1, |hits|, web);
    }
  }

  /** `search_error_solution`: with `today` for `get_today_str()` and `search` for the
      search service. On an exception only the message is returned and the files are
      untouched. */
  method SearchErrorSolution(state: AgentState, error: string, library: string, maxResults: int, today: string,
                             search: (string, int) -> Result<seq<SearchHit>, string>, web: Web)
    returns (message: string)
    modifies state`files
    ensures SearchOutcome(error, library, maxResults, search, web).Err? ==>
              state.files == old(state.files)
              && message == ErrorText(SearchOutcome(error, library, maxResults, search, web).error)
    ensures SearchOutcome(error, library, maxResults, search, web).Ok? ==>
              var ps := SearchOutcome(error, library, maxResults, search, web).value;
              state.files == WriteAll(old(state.files), ps, SearchQuery(error, library), today)
              && message == ResultText(error, ps)
  {
    var query := SearchQuery(error, library);
    var found := search(query, maxResults);
    if found.Err? {
      return ErrorText(found.error);
    }
    var processed := ProcessSearchResults(found.value, web);
    if processed.Err? {
      return ErrorText(processed.error);
    }
    var ps := processed.value;
    var saved, summaries := SaveResults(state, ps, query, today);
    message := FoundHeader(error, |ps|) + JoinLines(summaries) + FilesSavedLabel + Join(saved, ", ") + ReadHint;
  }

  /** The saving loop of `search_error_solution`: writes each result's file and collects
      its name and its summary line. */
  method SaveResults(state: AgentState, ps: seq<Processed>, query: string, today: string)
    returns (saved: seq<string>, summaries: seq<string>)
    modifies state`files
    ensures state.files == WriteAll(old(state.files), ps, query, today)
    ensures saved == Filenames(ps) && summaries == SummaryLines(ps)
  {
    saved := [];
    summaries := [];
    var i := 0;
    while i < |ps|
      invariant 0 <= i <= |ps|
      invariant state.files == WriteAll(old(state.files), ps[..i], query, today)
      invariant saved == Filenames(ps[..i]) && summaries == SummaryLines(ps[..i])
    {
      WriteAllStep(old(state.files), ps, i, query, today);
      SavedListsStep(ps, i);
      state.files := state.files[ps[i].filename := FileContent(ps[i], query, today)];
      saved := saved + [ps[i].filename];
      summaries := summaries + [SummaryLine(ps[i])];
      i := i + 1;
    }
    assert ps[..i] == ps;
  }

  /** One more result adds its filename and its summary line to the lists. */
  lemma SavedListsStep(ps: seq<Processed>, i: int)
    requires 0 <= i < |ps|
    ensures Filenames(ps[..i + 1]) == Filenames(ps[..i]) + [ps[i].filename]
    ensures SummaryLines(ps[..i + 1]) == SummaryLines(ps[..i]) + [SummaryLine(ps[i])]
  {
  }

  /** Saving one more result writes its file over the files saved so far. */
  lemma WriteAllStep(files: map<string, string>, ps: seq<Processed>, i: int, query: string, today: string)
    requires 0 <= i < |ps|
    ensures WriteAll(files, ps[..i + 1], query, today)
         == WriteAll(files, ps[..i], query, today)[ps[i].filename := FileContent(ps[i], query, today)]
  {
    assert ps[..i + 1][..i] == ps[..i];
  }

  /** The saved files are the old ones plus one per result name. */
  lemma {:induction false} WriteAllKeys(files: map<string, string>, ps: seq<Processed>, query: string, today: string)
    ensures WriteAll(files, ps, query, today).Keys == files.Keys + set i | 0 <= i < |ps| :: ps[i].filename
    decreases |ps|
  {
    if ps != [] {
      WriteAllKeys(files, ps[..|ps| - 1], query, today);
      NamesOfLast(ps, ps[..|ps| - 1]);
    }
  }

  /** The names of a list are those of all but its last entry, plus the last one's. */
  lemma NamesOfLast(ps: seq<Processed>, init: seq<Processed>)
    requires ps != [] && init == ps[..|ps| - 1]
    ensures (set i | 0 <= i < |ps| :: ps[i].filename)
         == (set i | 0 <= i < |init| :: init[i].filename) + {ps[|ps| - 1].filename}
  {
    var names := set i | 0 <= i < |ps| :: ps[i].filename;
    var initNames := set i | 0 <= i < |init| :: init[i].filename;
    forall n | n in names ensures n in initNames + {ps[|ps| - 1].filename} {
      var i :| 0 <= i < |ps| && ps[i].filename == n;
      if i < |init| { assert init[i] == ps[i]; }
    }
    forall n | n in initNames ensures n in names {
      var i :| 0 <= i < |init| && init[i].filename == n;
      assert ps[i] == init[i];
    }
  }

  /** A file no result names keeps its old content. */
  lemma {:induction false} WriteAllKeepsOthers(files: map<string, string>, ps: seq<Processed>, query: string, today: string, name: string)
    requires forall i :: 0 <= i < |ps| ==> ps[i].filename != name
    requires name in files
    ensures name in WriteAll(files, ps, query, today) && WriteAll(files, ps, query, today)[name] == files[name]
    decreases |ps|
  {
    if ps != [] {
      var init := ps[..|ps| - 1];
      assert forall i :: 0 <= i < |init| ==> init[i] == ps[i];
      WriteAllKeepsOthers(files, init, query, today, name);
    }
  }

  /** A result's file holds its own content unless a later result has the same name. */
  lemma {:induction false} WriteAllLastWins(files: map<string, string>, ps: seq<Processed>, query: string, today: string, i: int)
    requires 0 <= i < |ps|
    requires forall j :: i < j < |ps| ==> ps[j].filename != ps[i].filename
    ensures ps[i].filename in WriteAll(files, ps, query, today)
    ensures WriteAll(files, ps, query, today)[ps[i].filename] == FileContent(ps[i], query, today)
    decreases |ps|
  {
    if i < |ps| - 1 {
      var init := ps[..|ps| - 1];
      assert forall j :: 0 <= j < |init| ==> init[j] == ps[j];
      WriteAllLastWins(files, init, query, today, i);
    }
  }

  /** The message reports the number of results and names every saved file. */
  lemma ResultTextNamesEveryFile(error: string, ps: seq<Processed>, i: int)
    requires 0 <= i < |ps|
    ensures ResultText(error, ps)[..|FoundHeader(error, |ps|)|] == FoundHeader(error, |ps|)
    ensures Contains(ResultText(error, ps), ps[i].filename)
  {
    var names := Filenames(ps);
    assert names[i] == ps[i].filename;
    JoinContainsPart(names, ", ", i);
    var front := FoundHeader(error, |ps|) + JoinLines(SummaryLines(ps)) + FilesSavedLabel;
    ContainsConcat(front, Join(names, ", "), ps[i].filename);
    ContainsConcat(front + Join(names, ", "), ReadHint, ps[i].filename);
  }

  // ---------------------------------------------------------------------------
  // think_tool

  const ReflectionPrefix := "💭 Reflection recorded: "

  /** This file's `think_tool`: the reflection comes back verbatim after a fixed prefix. */
  function ThinkEcho(reflection: string): (r: string)
    ensures |r| == |ReflectionPrefix| + |reflection|
    ensures r[..|ReflectionPrefix|] == ReflectionPrefix && r[|ReflectionPrefix|..] == reflection
  {
    ReflectionPrefix + reflection
  }
}
