/** The stand-alone analyzer graph (github_analyzer_studio.py): the agent node's message
    preparation, the routing after it, and the two repository tools whose logic is not a
    plain API call. The chat model and the GitHub client are oracles. */
module Studio {
  import opened Wrappers
  import opened Text
  import opened State

  // ---------------------------------------------------------------------------
  // Routing

  /** Where the graph goes after the agent node. */
  datatype Route = ToTools | Finish

  /** The last message asked for tools: only AI messages carry tool calls. */
  predicate RequestsTools(m: Message) {
    m.AI? && m.toolCalls != []
  }

  /** `should_continue(state)`. The graph calls it right after the agent node added its
      response, so the history is not empty. */
  function ShouldContinue(messages: seq<Message>): (r: Route)
    requires |messages| > 0
    ensures r == ToTools <==> messages[|messages| - 1].AI? && |messages[|messages| - 1].toolCalls| > 0
  {
    if RequestsTools(messages[|messages| - 1]) then ToTools else Finish
  }

  /** What came before the last message does not matter. */
  lemma ShouldContinueLooksAtLast(messages: seq<Message>, earlier: seq<Message>)
    requires |messages| > 0
    ensures ShouldContinue(earlier + messages) == ShouldContinue(messages)
  {
    assert (earlier + messages)[|earlier + messages| - 1] == messages[|messages| - 1];
  }

  // ---------------------------------------------------------------------------
  // The agent node

  /** `SYSTEM_PROMPT`, formatted with the day's date. */
  function SystemPrompt(date: string): string {
    "GitHub Repository Analyzer Agent\nDate: " + date
    + "\n\nAnalyze GitHub repositories using available tools.\nBe concise and use tools before answering.\n"
  }

  /** The list `agent_node` hands to the model. */
  function PrepareMessages(messages: seq<Message>, prompt: string): (r: seq<Message>)
    ensures |r| > 0 && r[0].System?
  {
    if messages == [] || !messages[0].System? then [System(prompt)] + messages else messages
  }

  /** A system message is put in front exactly when the history is empty or does not start
      with one; otherwise the history is passed as it is. */
  lemma PrepareMessagesSpec(messages: seq<Message>, prompt: string)
    ensures (messages == [] || !messages[0].System?) ==>
      PrepareMessages(messages, prompt) == [System(prompt)] + messages
    ensures (messages != [] && messages[0].System?) ==> PrepareMessages(messages, prompt) == messages
    ensures PrepareMessages(messages, prompt)[|PrepareMessages(messages, prompt)| - |messages|..] == messages
    ensures |PrepareMessages(messages, prompt)| <= |messages| + 1
  {
  }

  /** Preparing twice is preparing once, whatever the second prompt. */
  lemma PrepareIdempotent(messages: seq<Message>, prompt: string, prompt2: string)
    ensures PrepareMessages(PrepareMessages(messages, prompt), prompt2) == PrepareMessages(messages, prompt)
  {
  }

  /** `agent_node(state)`: the update holds only the model's response to the prepared
      history. */
  function AgentNode(messages: seq<Message>, prompt: string, model: seq<Message> -> Message): (update: seq<Message>)
    ensures |update| == 1 && update[0] == model(PrepareMessages(messages, prompt))
  {
    [model(PrepareMessages(messages, prompt))]
  }

  // ---------------------------------------------------------------------------
  // list_repository_structure

  datatype Entry = Entry(name: string, isDir: bool)

  /** What `repo.get_contents(path)` gives: a directory listing, or one file as its `str`. */
  datatype Contents = Listing(entries: seq<Entry>) | OneFile(text: string)

  const ListLimit := 20

  function EntryLine(e: Entry): string {
    (if e.isDir then "📁" else "📄") + " " + e.name
  }

  /** `path or 'root'`. */
  function ShownPath(path: string): string {
    if path == "" then "root" else path
  }

  function ListingHeader(repoName: string, path: string): string {
    "Contents of " + repoName + "/" + ShownPath(path) + ":\n"
  }

  /** The item lines of a listing: one per entry among the first twenty. */
  function ListingLines(entries: seq<Entry>): (lines: seq<string>)
  {
    var shown := PyTake(entries, ListLimit);
    seq(|shown|, k requires 0 <= k < |shown| => EntryLine(shown[k]))
  }

  /** `list_repository_structure(repo_name, path)`; `Err` is the exception of either
      GitHub call. */
  function ListStructure(repoName: string, path: string, contents: Result<Contents, string>): (r: string)
    ensures contents.Err? ==> r == "Error: " + contents.error
    ensures contents.Ok? && contents.value.Listing? ==> ListingHeader(repoName, path) <= r
    ensures contents.Ok? && contents.value.OneFile? ==> r == contents.value.text
  {
    match contents
    case Err(e) => "Error: " + e
    case Ok(OneFile(text)) => text
    case Ok(Listing(entries)) => ListingHeader(repoName, path) + JoinLines(ListingLines(entries))
  }

  /** At most twenty entries are listed, they are the first ones, and in order. */
  lemma ListingLinesSpec(entries: seq<Entry>)
    ensures |ListingLines(entries)| == if |entries| <= ListLimit then |entries| else ListLimit
    ensures forall k :: 0 <= k < |ListingLines(entries)| ==> ListingLines(entries)[k] == EntryLine(entries[k])
  {
  }

  /** The reply for a directory is its header followed by the joined item lines. */
  lemma ListStructureOfListing(repoName: string, path: string, entries: seq<Entry>)
    ensures var r := ListStructure(repoName, path, Ok(Listing(entries)));
      var h := ListingHeader(repoName, path);
      |h| <= |r| && r[..|h|] == h && r[|h|..] == JoinLines(ListingLines(entries))
  {
    var r := ListStructure(repoName, path, Ok(Listing(entries)));
    var h := ListingHeader(repoName, path);
    assert r == h + JoinLines(ListingLines(entries));
  }

  // ---------------------------------------------------------------------------
  // read_file_from_repo

  /** What `repo.get_contents(file_path, ref=...)` returns: a file, with the outcome of
      reading its `.content` and decoding it from base64 and UTF-8 (the text, or the
      exception's text), or a directory (a list, which has no `.content`). */
  datatype Blob = FileBlob(decoded: Result<string, string>) | DirectoryBlob

  /** `get_contents` for `file_path` at a ref: what it returns, or the exception's text. */
  type GetAt = string -> Result<Blob, string>

  /** `str()` of the `AttributeError` that `.content` raises on a list. */
  const ListContentError := "'list' object has no attribute 'content'"

  /** Line 71: `.content` and the decoding, applied to what the fetch returned. */
  function Decode(b: Blob): (r: Result<string, string>)
    ensures b.DirectoryBlob? ==> r == Err(ListContentError)
  {
    match b
    case DirectoryBlob => Err(ListContentError)
    case FileBlob(decoded) => decoded
  }

  /** The refs asked for, in order: the requested ref, then "master" once if that failed. */
  function RefsTried(ref: string, get: GetAt): (refs: seq<string>)
  {
    if get(ref).Ok? then [ref] else [ref, "master"]
  }

  /** Lines 66-70: what `get_contents` returned for the requested ref, or else for "master";
      only a failure of the fetch itself moves on to "master". */
  function FetchWithFallback(ref: string, get: GetAt): (r: Result<Blob, string>)
    ensures get(ref).Ok? ==> r == get(ref)
    ensures get(ref).Err? ==> r == get("master")
  {
    match get(ref)
    case Ok(blob) => Ok(blob)
    case Err(_) => get("master")
  }

  function FileText(filePath: string, content: string): string {
    "# " + filePath + "\n" + Repeat('=', 60) + "\n" + content
  }

  /** `read_file_from_repo(repo_name, file_path, ref)`; `repo` is `get_repo`'s outcome. The
      content is decoded once, from the blob the fallback chose; every exception becomes
      "Error: " and its text. */
  function ReadFileFromRepo(filePath: string, ref: string, repo: Result<GetAt, string>): (r: string)
    ensures repo.Err? ==> r == "Error: " + repo.error
    ensures repo.Ok? && FetchWithFallback(ref, repo.value).Ok? && Decode(FetchWithFallback(ref, repo.value).value).Ok? ==>
              var head := "# " + filePath + "\n" + Repeat('=', 60) + "\n";
              |head| <= |r| && r[..|head|] == head
  {
    match repo
    case Err(e) => "Error: " + e
    case Ok(get) =>
      match FetchWithFallback(ref, get)
      case Err(e) => "Error: " + e
      case Ok(blob) =>
        match Decode(blob)
        case Ok(content) => FileText(filePath, content)
        case Err(e) => "Error: " + e
  }

  /** The requested ref is tried first and "master" at most once after it, only when the
      fetch at the requested ref raised; the blob comes from the last ref tried. */
  lemma FallbackOnce(ref: string, get: GetAt)
    ensures var refs := RefsTried(ref, get);
      && 1 <= |refs| <= 2 && refs[0] == ref
      && (|refs| == 2 <==> get(ref).Err?)
      && (|refs| == 2 ==> refs[1] == "master")
      && FetchWithFallback(ref, get) == get(refs[|refs| - 1])
  {
  }

  /** A file fetched at either ref and decoded is shown under its path and a rule of sixty
      `=`; otherwise the reply is the error of the failed fetch or of the decoding. */
  lemma ReadFileShowsContent(filePath: string, ref: string, get: GetAt)
    ensures var r := ReadFileFromRepo(filePath, ref, Ok(get));
      match FetchWithFallback(ref, get)
      case Ok(blob) =>
        (match Decode(blob)
         case Ok(content) =>
           var head := "# " + filePath + "\n" + Repeat('=', 60) + "\n";
           |head| <= |r| && r[..|head|] == head && r[|head|..] == content
         case Err(e) => r == "Error: " + e)
      case Err(e) => r == "Error: " + e
  {
    var r := ReadFileFromRepo(filePath, ref, Ok(get));
    match FetchWithFallback(ref, get)
    case Ok(blob) =>
      match Decode(blob) {
        case Ok(content) =>
          var head := "# " + filePath + "\n" + Repeat('=', 60) + "\n";
          assert r == head + content;
        case Err(e) =>
      }
    case Err(e) =>
  }

  /** Once the requested ref's fetch succeeds, "master" plays no part: a directory or a
      file that does not decode is reported as an error, with no retry. */
  lemma NoRetryAfterFetch(filePath: string, ref: string, get: GetAt, get': GetAt)
    requires get(ref).Ok? && get'(ref) == get(ref)
    ensures ReadFileFromRepo(filePath, ref, Ok(get)) == ReadFileFromRepo(filePath, ref, Ok(get'))
    ensures get(ref) == Ok(DirectoryBlob) ==> ReadFileFromRepo(filePath, ref, Ok(get)) == "Error: " + ListContentError
    ensures get(ref).value.FileBlob? && get(ref).value.decoded.Err? ==>
              ReadFileFromRepo(filePath, ref, Ok(get)) == "Error: " + get(ref).value.decoded.error
  {
  }
}
