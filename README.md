# GitHub Repository Analyzer Agent — a Dafny model of its tool core

This project models the logic of the GitHub issue-analysis agent: the tools the coordinator
agent and its sub-agents call, the shared state they read and update, and the delegation tool `task`
that runs a sub-agent in an isolated context and merges its files back. It also covers the two
support modules those tools use: configuration checking and error formatting. Finally it models
the stand-alone analyzer graph, with its agent node, routing and repository tools.

Every network service, language model, uuid generator and clock is a parameter: a function from
request to outcome (`Fetch`, `Result`, `Web`, `Runtime`), or a plain input such as the uid or
today's date. The model states what each tool computes for every outcome of those calls.

One module per source file:

- `State` (state.py): the agent state as a class. It has one field per key: `messages`, `files`,
  `todos`, `currentRepo`, `issueUrl` and `analysisResults`. Tools that update the state are
  methods with `modifies` clauses.
- `FileTools` (tools/file_tools.py): `ls`, `read_file`, `write_file`.
- `TodoTools` (tools/todo_tools.py): `write_todos`, `read_todos`, `mark_todo_done`. This includes
  the exact character-set behaviour of `lstrip('[x]')`.
- `GithubTools` (tools/github_tools.py): issue-URL parsing, `get_issue_details`,
  `search_code_in_repo`, and `read_file_from_repo` with its branch fallback.
- `GithubTools` also covers `get_repository_info`, for its validation only.
- `GithubTree` (tools/github_tools.py): `list_repository_structure` and its recursive
  `build_tree`.
- `SearchTools` (tools/search_tools.py): `os.path.splitext`, the fallback summary,
  `process_search_results`, `search_error_solution` and `think_tool`.
- `AnalysisTools` (tools/analysis_tools.py): the four regular expressions of
  `extract_stack_trace`, written out as scanners. Also the stack-trace report,
  `parse_error_from_issue` with its section patterns, and `think_tool`.
- `TaskTool` (task_tool.py): `_create_task_tool` and the `task` tool. This includes the concrete
  wiring in main.py: the sub-agent tool list and the two sub-agent configurations.
- `Errors` (errors.py): `AgentError.format_error`, `retry_on_failure`, `handle_github_error`,
  `handle_search_error`, `validate_repo_name` and `validate_issue_url`.
- `Config` (config.py): `validate` and `mask_key`.
- `Studio` (github_analyzer_studio.py): `agent_node`, `should_continue`,
  `list_repository_structure` and `read_file_from_repo`.
- Helper modules:
  - `Wrappers`: Option and Result.
  - `Text`: Python string semantics used by the tools — `strip`, `lstrip(chars)`, `split`,
    `join`, `in`, `lower`, `int()`, negative indexing and slicing.
  - `Ordering`: the code-point order Python's `sorted` uses on strings, and a sort by key.

Several behaviours of the code are modelled as written:

- `lstrip('[x]')` strips a set of characters, not a prefix. For example, `"[ ] task"` is read back
  as `"] task"`.
- The issue-URL parser indexes `parts[issues_idx - 2]`, and Python's negative indexing wraps
  around. So `github.com/issues/5` names owner `5` and repository `github.com`.
- In `handle_github_error`, any text containing "403" counts as a rate-limit error, before the
  "not found" test.
- The `Traceback` pattern is matched case-insensitively. The error, file and function patterns
  are matched case-sensitively.

## Model

| member | source | states |
|---|---|---|
| State.AgentState.Initial | github_agent/src/state.py:32-45 | a fresh state has no messages, files, TODOs or analysis results, and no current repository or issue URL |
| Config.MissingNames | github_agent/src/config.py:51 | the missing names are at most the required ones, and each named key has an empty value |
| Config.Diagnostic | github_agent/src/config.py:52-59 | validate prints nothing iff it accepts; a missing-required line names every missing key |
| Config.Validate | github_agent/src/config.py:37-61 | validate returns True iff it prints no diagnostic |
| Config.MaskKey | github_agent/src/config.py:66-69 | a key is shown as "❌ Not set" iff it is shorter than eight characters; otherwise the mask has 13 characters and shows the key's first four and last four characters |
| Config.MissingOfRequired | github_agent/src/config.py:43-51 | the missing list is GITHUB_TOKEN and then TAVILY_API_KEY, each present exactly when its value is empty |
| Config.ValidateIff | github_agent/src/config.py:37-61 | validation succeeds iff both required keys are set and at least one of the OpenAI and Anthropic keys is set |
| Config.MissingRequiredFirst | github_agent/src/config.py:51-59 | missing required keys are reported, in order, before a missing model key; the model-key message appears only when both required keys are present |
| Config.MaskShowsOnlyTheEnds | github_agent/src/config.py:66-69 | keys shorter than eight characters show "❌ Not set"; longer keys show their first four and last four characters around "..." |
| Config.MaskDeterminedByEnds | github_agent/src/config.py:69 | two keys of eight or more characters mask the same iff their first four and last four characters agree |
| FileTools.Entries | github_agent/src/tools/file_tools.py:31-33 | one listing entry per file, taken in sorted filename order |
| FileTools.LsLines | github_agent/src/tools/file_tools.py:29-35 | the listing holds a header with the file count, one entry per file, and the read_file hint |
| FileTools.Ls | github_agent/src/tools/file_tools.py:24-37 | an empty file map gives the empty-system message; otherwise the output is the joined listing |
| FileTools.LsListsEveryFile | github_agent/src/tools/file_tools.py:31-33 | a filename has an entry in the listing iff it is a file of the state |
| FileTools.LsListsNoFileTwice | github_agent/src/tools/file_tools.py:31-33 | no two listing entries are equal |
| FileTools.LsListsInSortedOrder | github_agent/src/tools/file_tools.py:31 | earlier entries name filenames that are not greater in code-point order |
| FileTools.ListingEntryInjective | github_agent/src/tools/file_tools.py:33 | different filenames give different listing lines |
| FileTools.NotFoundLines | github_agent/src/tools/file_tools.py:61-63 | the not-found reply has one bullet per existing file, and a bullet names a file iff it is one of the state's files |
| FileTools.ReadFile | github_agent/src/tools/file_tools.py:59-66 | an existing file is shown under its name with its whole content; a missing one gives the not-found header naming it, then the bullets; with no files at all the reply is the header alone, ending in "Available files:" and a newline |
| FileTools.NotFoundNamesEveryFile | github_agent/src/tools/file_tools.py:61-63 | reading a missing file mentions the bullet of every existing file |
| FileTools.BulletInjective | github_agent/src/tools/file_tools.py:63 | different filenames give different bullets |
| FileTools.WriteFile | github_agent/src/tools/file_tools.py:90-100 | the file map gains or overwrites exactly the written key; the message says "Created" iff the key was new |
| FileTools.ReadAfterWrite | github_agent/src/tools/file_tools.py:65-93 | reading a file right after writing it returns exactly the written content after the header |
| FileTools.WriteOverwritesOnlyItsKey | github_agent/src/tools/file_tools.py:90-93 | the last of two writes to one key wins, and a write leaves every other key and its content as it was |
| TodoTools.CleanTodoAnchored | github_agent/src/tools/todo_tools.py:74 | the cleaned TODO text starts and ends with no whitespace |
| TodoTools.WriteLines | github_agent/src/tools/todo_tools.py:42-44 | the reply is a header with the count and then item i as "  i. [ ] " followed by the i-th TODO |
| TodoTools.WriteTodos | github_agent/src/tools/todo_tools.py:36-46 | the state's TODO list becomes exactly the given list, and the reply is the joined lines |
| TodoTools.WriteListsEveryItem | github_agent/src/tools/todo_tools.py:43-44 | every written item appears in the reply with its 1-based number |
| TodoTools.ReadLines | github_agent/src/tools/todo_tools.py:69-75 | a header with the count, then one numbered line per TODO in order |
| TodoTools.ReadText | github_agent/src/tools/todo_tools.py:64-77 | an empty list gives the "No TODOs set yet" message; otherwise the reply is the joined lines |
| TodoTools.ReadLineParts | github_agent/src/tools/todo_tools.py:72-75 | a TODO line is its number, ✅ or [ ] according to whether the stripped TODO starts with [x], ✓ or ✅, and the cleaned text |
| TodoTools.ReadTodos | github_agent/src/tools/todo_tools.py:64-77 | the loop over the TODOs produces exactly the specified reply |
| TodoTools.ReadLinesOf | github_agent/src/tools/todo_tools.py:69-75 | the header followed by the per-item lines is the specified listing |
| TodoTools.ReadLineShowsStatus | github_agent/src/tools/todo_tools.py:73-75 | the first character after the number is ✅ iff the TODO counts as done |
| TodoTools.Mark | github_agent/src/tools/todo_tools.py:101-107 | for an index in 1..n only that item becomes its done text; every other item is unchanged; an index out of range changes nothing |
| TodoTools.MarkTodoDone | github_agent/src/tools/todo_tools.py:96-109 | the state's TODOs become the marked list and the reply is the specified message |
| TodoTools.CleanDoneText | github_agent/src/tools/todo_tools.py:104-107 | reading a "✅ " item back gives the cleaned text that was marked |
| TodoTools.DoneTextIsDone | github_agent/src/tools/todo_tools.py:72-107 | a marked item always reads as done |
| TodoTools.MarkIdempotent | github_agent/src/tools/todo_tools.py:106-107 | marking the same index twice equals marking it once |
| TodoTools.ReadDoneText | github_agent/src/tools/todo_tools.py:72-107 | a marked item is listed with ✅ and its cleaned text |
| TodoTools.ReadAfterMark | github_agent/src/tools/todo_tools.py:69-107 | after marking index i, reading lists item i as done with its cleaned text |
| TodoTools.CleaningCheckedBox | github_agent/src/tools/todo_tools.py:72-74 | "[x] task" counts as done and cleans to "task" |
| TodoTools.CleaningDropsLeadingX | github_agent/src/tools/todo_tools.py:72-74 | a leading x is stripped by the character set without marking the item done |
| TodoTools.CleaningUncheckedBox | github_agent/src/tools/todo_tools.py:72-75 | "[ ] task" is not done and cleans to "] task", so it is listed as "[ ] ] task" |
| Ordering.StrLeRefl | github_agent/src/tools/file_tools.py:31 | code-point string order is reflexive |
| Ordering.StrLeTotal | github_agent/src/tools/file_tools.py:31 | code-point string order is total |
| Ordering.StrLeAntisym | github_agent/src/tools/file_tools.py:31 | code-point string order is antisymmetric |
| Ordering.StrLeTrans | github_agent/src/tools/file_tools.py:31 | code-point string order is transitive |
| Ordering.LeastExists | github_agent/src/tools/file_tools.py:31 | every non-empty set of filenames has a least element |
| Ordering.LeastUnique | github_agent/src/tools/file_tools.py:31 | the least element is unique |
| Ordering.SortedKeys | github_agent/src/tools/file_tools.py:31 | the sorted keys have exactly the elements of the key set |
| Ordering.SortedKeysSorted | github_agent/src/tools/file_tools.py:31 | the sorted keys are in ascending order and distinct |
| Ordering.InsertBySorted | github_agent/src/tools/github_tools.py:184 | inserting into a list sorted by key keeps it sorted and adds exactly that element |
| Ordering.SortBySorted | github_agent/src/tools/github_tools.py:184 | sorting by name gives a sorted permutation of the input |
| GithubTools.SegmentsOfJoin | github_agent/src/tools/github_tools.py:262 | `rstrip('/').split('/')` recovers the slash-free parts a URL was joined from |
| GithubTools.ParseIssueUrl | github_agent/src/tools/github_tools.py:262-281 | the URL is refused iff it lacks github.com or an "issues" segment; a parsed owner and repository are segments of the URL, the number is int() of the segment after the first "issues", and a failure is the index error or int()'s ValueError for that segment |
| GithubTools.IntErrorQuotesSegment | github_agent/src/tools/github_tools.py:280 | int()'s error quotes a plain segment in single quotes, or in double quotes when it holds a single quote and no double quote |
| GithubTools.ParseOfSegments | github_agent/src/tools/github_tools.py:264-281 | the parsed owner, repository and number are the two segments before the first "issues" and `int()` of the one after; a non-number gives int()'s ValueError, quoting the segment as repr() does |
| GithubTools.LinkUrlSegments | github_agent/src/tools/github_tools.py:262 | a canonical issue link splits into its seven segments and contains github.com |
| GithubTools.ParseLinkSegments | github_agent/src/tools/github_tools.py:262-281 | a canonical link parses to its owner and repository, with the number given by int() of the last segment or by its error |
| GithubTools.ParseIssueLink | github_agent/src/tools/github_tools.py:262-281 | for a canonical issue link, parsing returns the owner, repository and number it was built from |
| GithubTools.ParseNonNumeric | github_agent/src/tools/github_tools.py:280 | a non-numeric issue segment fails with int()'s ValueError text, which quotes the segment as repr() does |
| GithubTools.ParseMissingNumber | github_agent/src/tools/github_tools.py:277-280 | a URL ending in "issues" (with or without a trailing slash) fails with "list index out of range" |
| GithubTools.ParseShortUrlWrapsAround | github_agent/src/tools/github_tools.py:277-279 | with "issues" at index 1, the negative index wraps, so the owner is the number and the repository is "github.com" |
| GithubTools.CopiedComments | github_agent/src/tools/github_tools.py:305 | the number of comments written is min(total, 10) |
| GithubTools.CommentsLines | github_agent/src/tools/github_tools.py:305-308 | three lines per written comment |
| GithubTools.CommentsLinesAt | github_agent/src/tools/github_tools.py:305-308 | lines 3i to 3i+2 are the heading, date and body of comment i+1 |
| GithubTools.RenderIssueFile | github_agent/src/tools/github_tools.py:288-308 | the loop builds exactly the specified issue file lines |
| GithubTools.GetIssueDetails | github_agent/src/tools/github_tools.py:259-355 | the reply is the specified message; files, repository and URL change only on success; then exactly the saved file is written, and the repository and URL are recorded |
| GithubTools.IssueDetails | github_agent/src/tools/github_tools.py:262-336 | a file is saved only for a parsed URL whose issue was fetched, under issue_{number}_{uid}.md and for the repository owner/repo |
| GithubTools.SavedOnlyOnSuccess | github_agent/src/tools/github_tools.py:264-355 | a file is saved iff the URL parses and the issue is fetched; an invalid URL and a parse failure give their error messages and save nothing |
| GithubTools.IssueLinkSaves | github_agent/src/tools/github_tools.py:311-336 | a valid link whose issue is found is saved as issue_{number}_{uid}.md, with the current repository set to owner/repo |
| GithubTools.CommentsCapped | github_agent/src/tools/github_tools.py:302-322 | the file has ten header lines, then a heading with the full count and three lines for each of the first ten comments; the summary reports the full count |
| GithubTools.Snippet | github_agent/src/tools/github_tools.py:70 | a snippet is the prefix of the fragment of length min(len(fragment), 200) |
| GithubTools.ReportedCount | github_agent/src/tools/github_tools.py:61 | the reported count is min(total, max_results) |
| GithubTools.HitLines | github_agent/src/tools/github_tools.py:64-71 | each hit's lines start with its numbered path headline |
| GithubTools.SearchCodeInRepo | github_agent/src/tools/github_tools.py:50-78 | the loop over hits produces exactly the specified reply |
| GithubTools.SearchCodeText | github_agent/src/tools/github_tools.py:55-78 | a search with matches begins with the header giving min(total, max_results); one with none replies "No results found for query:" and the query |
| GithubTools.PageSlice | github_agent/src/tools/github_tools.py:63 | `results[:max_results]` gives the first max_results hits, all of them when there are fewer, and none for a negative bound |
| GithubTools.NegativeBoundShowsNoHits | github_agent/src/tools/github_tools.py:61-78 | with a negative max_results a search with matches replies with its header alone |
| GithubTools.HitsLinesHaveHeadlines | github_agent/src/tools/github_tools.py:63-64 | every hit shown has its numbered headline among the lines |
| GithubTools.SearchShowsFirstHits | github_agent/src/tools/github_tools.py:61-64 | each of the first max_results hits appears by number and path, below a header with the reported count |
| GithubTools.NoResultsNamesQuery | github_agent/src/tools/github_tools.py:57-58 | a search with no hits replies "No results found for query:" followed by the query |
| GithubTools.FirstAvailable | github_agent/src/tools/github_tools.py:110-118 | the chosen alternative is the first ref, other than the requested one, that could be fetched, and all earlier ones failed or were skipped; none is chosen only if all failed or were skipped |
| GithubTools.FirstAvailableAt | github_agent/src/tools/github_tools.py:110-118 | the first fetchable alternative, after skipped or failed ones, is the one chosen |
| GithubTools.ReadFileFromRepo | github_agent/src/tools/github_tools.py:101-145 | the for-else fallback loop, which stops at the first alternative fetched, produces exactly the specified reply, decoding only the entry it stopped at |
| GithubTools.FallbackSkipsRequestedRef | github_agent/src/tools/github_tools.py:108-116 | when "main" gives 404 and "master" fails, "main" is not retried and "develop" is used |
| GithubTools.FallbackPrefersMaster | github_agent/src/tools/github_tools.py:108-116 | after a 404, "master" is tried first among the alternatives |
| GithubTools.FallbackExhausted | github_agent/src/tools/github_tools.py:107-120 | when the requested ref gives 404 and no other alternative can be fetched, the reply is "File not found" naming the requested ref |
| GithubTools.OnlyNotFoundFallsBack | github_agent/src/tools/github_tools.py:107-122 | unless the first fetch failed with status 404, the reply does not depend on any other ref |
| GithubTools.ReadFileText | github_agent/src/tools/github_tools.py:107-122 | after a 404 at the requested ref the reply is "File not found" or the rendering of what some other alternative ref gave |
| GithubTools.DecodeFailureIsReported | github_agent/src/tools/github_tools.py:111-145 | content that does not decode ends the tool with "Error reading file:" and its error, at the requested ref or at the alternative the loop stopped at; no further ref is tried |
| GithubTools.RepositoryInfo | github_agent/src/tools/github_tools.py:375-398 | a name that fails validation gives the validation message; a valid name that is fetched gives the fetched info |
| GithubTools.RepositoryInfoValidatesFirst | github_agent/src/tools/github_tools.py:375-398 | a name not of the form owner/repo gives the validation error without a fetch; a valid name that is fetched gives the fetched info |
| GithubTree.OfKindSpec | github_agent/src/tools/github_tools.py:182-183 | the directory and file filters keep exactly the items of that type |
| GithubTree.Arrange | github_agent/src/tools/github_tools.py:181-186 | a listing keeps exactly its directory and file items; a single entry stands alone |
| GithubTree.Tree | github_agent/src/tools/github_tools.py:171-207 | beyond the depth limit there are no lines; a denied listing gives the one warning line; otherwise every arranged entry gives at least one line |
| GithubTree.BuildTree | github_agent/src/tools/github_tools.py:171-207 | the recursive loop builds exactly the specified tree lines |
| GithubTree.BlocksStep | github_agent/src/tools/github_tools.py:188-202 | one entry adds its line, then its subtree when it is a directory above the depth limit |
| GithubTree.ListRepositoryStructure | github_agent/src/tools/github_tools.py:209-228 | the header followed by the tree, or by "(empty or inaccessible)" when there are no lines |
| GithubTree.GroupsInOrder | github_agent/src/tools/github_tools.py:184 | sorted directories followed by sorted files puts every directory first, with each group in name order |
| GithubTree.SortByKeeps | github_agent/src/tools/github_tools.py:184 | sorting by name keeps exactly the same items |
| GithubTree.ArrangeDirsFirst | github_agent/src/tools/github_tools.py:182-184 | the arranged listing is all directories and then all files, each in name order, and holds exactly the directory and file items |
| GithubTree.Blocks | github_agent/src/tools/github_tools.py:188-202 | the entries of a listing give at least one line each |
| GithubTree.EmptyTreeIff | github_agent/src/tools/github_tools.py:173-221 | the tree is empty iff max_depth is negative or the root listing has no directory or file items |
| GithubTree.BlocksListEntries | github_agent/src/tools/github_tools.py:188-202 | every entry's line appears in the block |
| GithubTree.TreeListsEntries | github_agent/src/tools/github_tools.py:188-202 | every arranged entry of a readable directory appears in its tree |
| GithubTree.ConnectorMarksLast | github_agent/src/tools/github_tools.py:189-190 | an entry line carries "└── " exactly when it is the last entry |
| GithubTree.BlocksAtLimit | github_agent/src/tools/github_tools.py:196 | at the depth limit, directories are listed but not expanded |
| GithubTree.TreeDepthLimit | github_agent/src/tools/github_tools.py:173-196 | beyond the limit the tree is empty; at the limit it is just the entry lines |
| GithubTree.OtherTypesDropped | github_agent/src/tools/github_tools.py:182-186 | a listed item that is neither a directory nor a file is dropped, but a single non-list item is kept |
| SearchTools.NonDotBetweenIff | github_agent/src/tools/search_tools.py:130 | the stem test holds iff some character in the range is not a dot |
| SearchTools.SplitExt | github_agent/src/tools/search_tools.py:130 | the stem and the extension concatenate to the name |
| SearchTools.Uniquify | github_agent/src/tools/search_tools.py:129-131 | the unique name is one character longer than the name and the uid together |
| SearchTools.SplitExtSpec | github_agent/src/tools/search_tools.py:130 | splitext's stem and extension concatenate to the name; the extension is empty, or one dot followed by no dot or slash |
| SearchTools.SplitExtOfStemAndExt | github_agent/src/tools/search_tools.py:130 | a name with a non-dot stem and an extension splits back into them |
| SearchTools.HiddenNameHasNoExt | github_agent/src/tools/search_tools.py:130 | a leading-dot name like ".md" has no extension |
| SearchTools.UniquifyKeepsExtension | github_agent/src/tools/search_tools.py:129-131 | the uid goes between stem and extension, and different uids of the same length give different names |
| SearchTools.MdNameGetsId | github_agent/src/tools/search_tools.py:129-131 | "stem.md" becomes "stem_{uid}.md" |
| SearchTools.FallbackSummary | github_agent/src/tools/search_tools.py:84-89 | the fallback is named search_result.md; it summarises content of up to 500 characters as itself, and longer content as its first 500 characters and "..." |
| SearchTools.ProcessSearchResults | github_agent/src/tools/search_tools.py:101-141 | the loop over results computes exactly the specified processed list, or stops with the exception of the first result that raises one |
| SearchTools.ProcessAll | github_agent/src/tools/search_tools.py:101-141 | processing succeeds iff every result is processed without an exception escaping, and then gives one entry per result |
| SearchTools.ProcessPrefix | github_agent/src/tools/search_tools.py:104-139 | the first n results give n entries iff none of them raises |
| SearchTools.FailureEndsAll | github_agent/src/tools/search_tools.py:104-141 | a result that raises after all earlier ones succeeded makes the whole call raise its exception |
| SearchTools.ErrorStays | github_agent/src/tools/search_tools.py:104-139 | once a result has raised, the later results do not change the outcome |
| SearchTools.FirstFailureIsReported | github_agent/src/tools/search_tools.py:104-139 | a failed run reports the exception of a result that raised, all earlier results having been processed |
| SearchTools.HitFailsIff | github_agent/src/tools/search_tools.py:105-130 | a result raises exactly when it has no URL (KeyError 'url'), its fetch raises an exception other than a timeout or request error, or its 200 page makes markdownify raise or the model give no object (AttributeError on filename); each with that exception's text |
| SearchTools.ProcessPrefixAt | github_agent/src/tools/search_tools.py:104-139 | the first n results are processed one by one, in order |
| SearchTools.ProcessingKeepsEachHit | github_agent/src/tools/search_tools.py:104-139 | processing fails iff some result raises, and then with the exception of the first one; otherwise each result keeps its URL and its title (default "No title") and gets its summary's filename with the uid appended |
| SearchTools.UnansweredPageUsesSnippet | github_agent/src/tools/search_tools.py:114-120 | a non-200 page uses the search snippet (default "Error fetching URL") and is named url_error_{uid}.md |
| SearchTools.UnreachablePageUsesSnippet | github_agent/src/tools/search_tools.py:121-126 | a connection failure uses the snippet (default "Connection error") and is named connection_error_{uid}.md |
| SearchTools.FetchedPageIsSummarised | github_agent/src/tools/search_tools.py:73-113 | a 200 page that markdownify converts keeps the markdown as raw content and gets the model's summary of its first 4000 characters and today's date, or the fallback summary named search_result_{uid}.md if the model raises |
| SearchTools.SearchQuery | github_agent/src/tools/search_tools.py:173-179 | the query is the library and a space (when a library is given), then the error, then " programming error solution" |
| SearchTools.FailingHitEndsSearch | github_agent/src/tools/search_tools.py:190-235 | the tool fails iff some result of its search raises; a first result whose fetch raises ends it with that exception's text |
| SearchTools.SearchErrorSolution | github_agent/src/tools/search_tools.py:171-235 | on failure the files are unchanged and the reply is the error text; on success every processed result is written and the reply lists them |
| SearchTools.SaveResults | github_agent/src/tools/search_tools.py:193-215 | the loop writes every result's file and collects the filenames and summary lines in order |
| SearchTools.WriteAll | github_agent/src/tools/search_tools.py:197-213 | saving never drops a file that was there before, and the last result's file holds its content |
| SearchTools.WriteAllKeys | github_agent/src/tools/search_tools.py:197-213 | after saving, the file keys are the old keys plus the saved filenames |
| SearchTools.WriteAllKeepsOthers | github_agent/src/tools/search_tools.py:213 | a file no result writes to keeps its content |
| SearchTools.WriteAllLastWins | github_agent/src/tools/search_tools.py:213 | a filename holds the content of the last result written to it |
| SearchTools.ResultTextNamesEveryFile | github_agent/src/tools/search_tools.py:218-224 | the reply starts with the count header and names every saved file |
| SearchTools.ThinkEcho | github_agent/src/tools/search_tools.py:267 | the reflection is echoed in full after the prefix |
| Errors.AgentError.Parts | github_agent/src/errors.py:21-27 | the message part comes first, and there is one further part for each non-empty field among details and suggestion |
| Errors.FormatMatchesReference | github_agent/src/errors.py:19-29 | the formatted error equals a direct case-by-case rendering of its non-empty parts |
| Errors.FormatAllParts | github_agent/src/errors.py:21-29 | with all three fields set, the text is message, details and suggestion joined by newlines |
| Errors.FormatStartsWithMessage | github_agent/src/errors.py:21 | the formatted error always starts with "❌ " and the message |
| Errors.AgentError.Format | github_agent/src/errors.py:19-29 | the formatted error starts with "❌ " and the message, and is exactly that when there are no details and no suggestion |
| Errors.RetryOnFailure | github_agent/src/errors.py:61-90 | at most max_retries calls are made, and every call but the last failed; the result is the first success; the error is raised iff all max_retries calls fail; nothing happens for max_retries <= 0 |
| Errors.RetryErrorText | github_agent/src/errors.py:79-83 | the raised error names the attempt count, the last error's text and its type, and suggests checking the network and credentials |
| Errors.ClassifyGithubIsFirstMatch | github_agent/src/errors.py:103-164 | the error kind is that of the first rule whose keywords occur in the lowered text, and generic when none does |
| Errors.ClassifyGithubError | github_agent/src/errors.py:103-158 | the kind is rate limit iff "rate limit" or "403" occurs, and generic iff no rule's keyword occurs |
| Errors.HandleGithubError | github_agent/src/errors.py:93-164 | the message contains the context when one is given and always ends with the error text |
| Errors.GithubMessageShowsContextAndError | github_agent/src/errors.py:107-164 | the message shows the context, or the kind's default details when there is none, and ends with the original error text |
| Errors.RateLimitHeadSaysRateLimit | github_agent/src/errors.py:107 | the rate-limit heading mentions "rate limit" |
| Errors.RateLimitTailSaysWait | github_agent/src/errors.py:111-112 | the rate-limit suggestions say to wait |
| Errors.RateLimitMessageSaysWait | github_agent/src/errors.py:106-116 | a rate-limit message mentions "rate limit" and "wait" |
| Errors.ForbiddenWinsOverOthers | github_agent/src/errors.py:106-132 | "403 Forbidden: Not Found" is reported as a rate-limit error, not as not-found |
| Errors.ClassifySearchIsFirstMatch | github_agent/src/errors.py:177-216 | the search error kind is that of the first rule matching the lowered text, and generic when none does |
| Errors.SearchMessageNamesQuery | github_agent/src/errors.py:181-216 | every search error message names the query, and the generic one also shows the error |
| Errors.HandleSearchError | github_agent/src/errors.py:167-216 | every message contains the query, and the generic one also contains the error |
| Errors.ValidateRepoNameIff | github_agent/src/errors.py:228-252 | a name is valid iff it is a non-empty owner, one slash and a non-empty repository; a valid name has no message |
| Errors.ValidateRepoName | github_agent/src/errors.py:219-252 | the verdict is True iff the message is empty |
| Errors.NoSlashNamesFormat | github_agent/src/errors.py:231-238 | a non-empty name without a slash is rejected with the owner/repository hint |
| Errors.ValidateIssueUrlIff | github_agent/src/errors.py:264-280 | a URL is valid iff it contains github.com and /issues/ or /pull/; an empty URL gets its own message |
| Errors.ValidateIssueUrl | github_agent/src/errors.py:255-280 | the verdict is True iff the message is empty, and a valid URL contains github.com |
| Errors.IssueLinkValid | github_agent/src/errors.py:264-280 | every canonical issue link passes validation |
| AnalysisTools.RunEnd | github_agent/src/tools/analysis_tools.py:38-40 | a run of one character class ends within the string |
| AnalysisTools.RunEndSpec | github_agent/src/tools/analysis_tools.py:38-40 | a run is the longest one: all its characters are in the class, and the next one is not |
| AnalysisTools.RunEndAt | github_agent/src/tools/analysis_tools.py:38-40 | any maximal run found by inspection is the computed one |
| AnalysisTools.LastNonNewline | github_agent/src/tools/analysis_tools.py:38 | the backtracking point of `.+` is a non-newline character within range, or there is none |
| AnalysisTools.ErrorMatchAt | github_agent/src/tools/analysis_tools.py:38-47 | a match has an error type longer than five characters and a non-empty message |
| AnalysisTools.ErrorMatchAtType | github_agent/src/tools/analysis_tools.py:38-46 | a match's type is a word that ends in Error or Exception, followed by ':' |
| AnalysisTools.ErrorMatchAtMessage | github_agent/src/tools/analysis_tools.py:38-47 | the captured message does not contain a newline |
| AnalysisTools.FirstMatchIsLeftmost | github_agent/src/tools/analysis_tools.py:44 | re.search returns the match at the leftmost position where one exists |
| AnalysisTools.FirstErrorMatchIsLeftmost | github_agent/src/tools/analysis_tools.py:44 | the error found is the leftmost match of the error pattern, and if none is found there is none anywhere |
| AnalysisTools.ErrorMatchAtWhen | github_agent/src/tools/analysis_tools.py:38 | a word ending in Error, a colon and spaces match, capturing the word and the rest of the line |
| AnalysisTools.ErrorLineType | github_agent/src/tools/analysis_tools.py:38 | in "NameError: msg" the word run ends at the colon and is named by Error |
| AnalysisTools.ErrorLineMessage | github_agent/src/tools/analysis_tools.py:38 | in "NameError: msg" the message capture is all of msg |
| AnalysisTools.ErrorLineIsRead | github_agent/src/tools/analysis_tools.py:38-47 | the line "NameError: msg" is read as type "NameError" with message "msg" |
| AnalysisTools.FileMatchAt | github_agent/src/tools/analysis_tools.py:39 | a file match ends after where it starts, within the text |
| AnalysisTools.FileMatchAtWhen | github_agent/src/tools/analysis_tools.py:39 | `File "path", line N` matches, capturing the path and the value of N |
| AnalysisTools.FileReferenceLayout | github_agent/src/tools/analysis_tools.py:39 | the character layout of a rendered `File "path", line N` |
| AnalysisTools.FileReferenceIsRead | github_agent/src/tools/analysis_tools.py:39-54 | a `File "path", line N` reference is read back as that path and line number |
| AnalysisTools.FunctionMatchAt | github_agent/src/tools/analysis_tools.py:40 | a function match ends after where it starts, within the text |
| AnalysisTools.FunctionMatchAtWhen | github_agent/src/tools/analysis_tools.py:40 | "in", spaces, a word and "(" match, capturing the word |
| AnalysisTools.FunctionCallMatch | github_agent/src/tools/analysis_tools.py:40 | "in name(" matches at its start, capturing name |
| AnalysisTools.FunctionCallIsRead | github_agent/src/tools/analysis_tools.py:40-60 | the text "in name(" yields exactly the one function name |
| AnalysisTools.ScanFindings | github_agent/src/tools/analysis_tools.py:29-60 | the scanning loops compute exactly the specified findings |
| AnalysisTools.Scan | github_agent/src/tools/analysis_tools.py:29-60 | an error type is found iff a message is; there are as many files as line numbers as file references; the functions are exactly the names found, without repeats |
| AnalysisTools.FileLinesOf | github_agent/src/tools/analysis_tools.py:79-80 | the zip loop renders exactly the specified file lines |
| AnalysisTools.FunctionLinesOf | github_agent/src/tools/analysis_tools.py:85-86 | the loop renders exactly the specified function lines |
| AnalysisTools.RenderReport | github_agent/src/tools/analysis_tools.py:69-92 | the report builder produces exactly the specified lines |
| AnalysisTools.ExtractStackTrace | github_agent/src/tools/analysis_tools.py:11-94 | the tool computes exactly the specified report |
| AnalysisTools.StackTraceReport | github_agent/src/tools/analysis_tools.py:63-94 | with no error type and no Traceback the reply is the no-trace text; otherwise it starts with the analysis heading |
| AnalysisTools.ReportStartsWithHeading | github_agent/src/tools/analysis_tools.py:69 | a report always starts with "# Stack Trace Analysis" |
| AnalysisTools.NoTraceIff | github_agent/src/tools/analysis_tools.py:63-67 | the "no clear stack trace" reply is given iff there is no error match and no Traceback line |
| AnalysisTools.TypeLineOnlyWhenPresent | github_agent/src/tools/analysis_tools.py:71-72 | the report has an Error Type line iff an error type was found |
| AnalysisTools.MessageLineOnlyWhenPresent | github_agent/src/tools/analysis_tools.py:74-75 | the report has an Error Message line iff a non-empty message was found |
| AnalysisTools.LabelsDiffer | github_agent/src/tools/analysis_tools.py:72-75 | the type line never starts like the message line, and the message line never starts like the type line |
| AnalysisTools.OtherLinesUnlabelled | github_agent/src/tools/analysis_tools.py:69-92 | no heading, section or next-step line starts with a bold label |
| AnalysisTools.HeadingsAreNotOtherLines | github_agent/src/tools/analysis_tools.py:69-92 | the section headings never occur as other report lines |
| AnalysisTools.SectionBodiesAreNotHeadings | github_agent/src/tools/analysis_tools.py:77-87 | neither section contains the other's heading |
| AnalysisTools.HeadingsOnlyWhenPresent | github_agent/src/tools/analysis_tools.py:77-87 | the Files heading appears iff files were found, and the Functions heading appears iff functions were found |
| Text.DedupSpec | github_agent/src/tools/analysis_tools.py:57-60 | the deduplicated names are exactly the names found, without repeats, in order of first appearance |
| Text.Dedup | github_agent/src/tools/analysis_tools.py:57-60 | the deduplicated list is no longer than the input and holds only input names |
| AnalysisTools.ThinkNote | github_agent/src/tools/analysis_tools.py:130 | reflections of up to 100 characters are echoed; longer ones are cut to their first 100 characters and "..." |
| AnalysisTools.DetectSections | github_agent/src/tools/analysis_tools.py:170-173 | the loop over the patterns finds exactly the specified sections, in pattern order |
| AnalysisTools.StatusLinesOf | github_agent/src/tools/analysis_tools.py:181-185 | the loop renders exactly the specified status lines |
| AnalysisTools.ParseErrorFromIssue | github_agent/src/tools/analysis_tools.py:134-192 | the tool computes exactly the specified analysis |
| AnalysisTools.FoundSectionsSpec | github_agent/src/tools/analysis_tools.py:170-173 | a section is reported iff its pattern occurs in the content |
| AnalysisTools.EverySectionIsChecked | github_agent/src/tools/analysis_tools.py:162-168 | every section kind is among the patterns tried |
| AnalysisTools.StatusLineDistinct | github_agent/src/tools/analysis_tools.py:183-185 | different sections give different status lines, none of which is the no-sections line |
| AnalysisTools.StatusLinesMembers | github_agent/src/tools/analysis_tools.py:181-185 | the no-sections line appears iff nothing was found, and a section's line appears iff it was found |
| AnalysisTools.StackTraceReportShape | github_agent/src/tools/analysis_tools.py:63-94 | a stack-trace report is either the no-trace reply or starts with the analysis heading |
| AnalysisTools.OutsideLinesHaveNoDash | github_agent/src/tools/analysis_tools.py:176-190 | no line outside the status block starts with "-" |
| AnalysisTools.StructureListsSections | github_agent/src/tools/analysis_tools.py:170-185 | the analysis lists a section iff its pattern occurs, and says none were found iff none occurs |
| TaskTool.ByKeySpec | github_agent/src/task_tool.py:30-33 | the name map has a key iff some item has that name, and each maps to the last item with it |
| TaskTool.CreateTaskTool | github_agent/src/task_tool.py:30-33 | every agent and every tool is stored under its own name |
| TaskTool.CreateTaskToolSpec | github_agent/src/task_tool.py:13-33 | the agents are keyed by their distinct names, and the tools are keyed by name |
| TaskTool.ResolvedNames | github_agent/src/task_tool.py:79 | every resolved name is in the tool map |
| TaskTool.ResolveTools | github_agent/src/task_tool.py:78-80 | every resolved tool is a tool of the map |
| TaskTool.ResolvedNamesSpec | github_agent/src/task_tool.py:79 | resolution keeps the allowed names that are known, in order and with multiplicity, and drops the rest |
| TaskTool.ResolvedMembers | github_agent/src/task_tool.py:78-82 | a name is resolved iff it is allowed and known; none is resolved iff no allowed name is known |
| TaskTool.IsolatedState | github_agent/src/task_tool.py:96-104 | the sub-agent starts with only the description as a message, a copy of the files, no TODOs, the parent's repository and URL, and 10 steps |
| TaskTool.LastAI | github_agent/src/task_tool.py:117-120 | the chosen message is an AI message |
| TaskTool.LastAISpec | github_agent/src/task_tool.py:117-122 | it is the last AI message, and there is none iff no message is from the AI |
| TaskTool.LastAIAt | github_agent/src/task_tool.py:117-120 | an AI message followed only by others is the one chosen |
| TaskTool.LastAIFindings | github_agent/src/task_tool.py:115-124 | the reversed-loop search returns exactly the specified findings |
| TaskTool.Task | github_agent/src/task_tool.py:36-137 | the reply and the parent's new files are exactly those of the specified delegation |
| TaskTool.Delegate | github_agent/src/task_tool.py:67-137 | no parent file is ever lost, and an unknown sub-agent type changes no file |
| TaskTool.UnknownTypeListsRegistered | github_agent/src/task_tool.py:70-72 | an unknown sub-agent type changes no files, and the reply names it and every registered agent |
| TaskTool.NoToolsRunsNothing | github_agent/src/task_tool.py:81-82 | with no known tools the reply is "No tools available", and no agent is created or run |
| TaskTool.MergeOnlyOnSuccess | github_agent/src/task_tool.py:85-137 | when a known sub-agent with tools is created and runs, the parent's files become its own overwritten by the sub-agent's; files change only in that case |
| TaskTool.SuccessReport | github_agent/src/task_tool.py:127-134 | the report contains the findings and ends with the count of the sub-agent's files |
| TaskTool.MainToolMapKnowsAll | github_agent/src/main.py:62-70 | every sub-agent tool is in the main task tool's map |
| TaskTool.MainAgentNames | github_agent/src/main.py:99-124 | the registered agents are repo-investigator and error-researcher, in that order |
| TaskTool.MainAllowListsResolve | github_agent/src/main.py:99-122 | both sub-agents' allow-lists resolve in full |
| TaskTool.AllKnownResolve | github_agent/src/task_tool.py:79 | an allow-list of known names resolves to itself |
| Studio.ShouldContinue | github_analyzer_studio.py:105-114 | the route is "tools" iff the last message is an AI message with tool calls, and END otherwise |
| Studio.ShouldContinueLooksAtLast | github_analyzer_studio.py:107-108 | messages before the last one do not change the route |
| Studio.PrepareMessages | github_analyzer_studio.py:98-99 | the prepared history always starts with a system message |
| Studio.PrepareMessagesSpec | github_analyzer_studio.py:95-99 | the system prompt is prepended iff the history is empty or does not start with a system message; the history is kept as its suffix |
| Studio.PrepareIdempotent | github_analyzer_studio.py:98-99 | preparing twice equals preparing once |
| Studio.AgentNode | github_analyzer_studio.py:101-102 | the node's update is exactly the model's one response to the prepared history |
| Studio.ListingLinesSpec | github_analyzer_studio.py:55 | at most the first twenty entries are shown, in order |
| Studio.ListStructureOfListing | github_analyzer_studio.py:54-56 | a directory reply is its header followed by the entry lines |
| Studio.ListStructure | github_analyzer_studio.py:49-59 | a failure gives "Error: " and its text; a directory reply starts with its header; a single entry is its text |
| Studio.Decode | github_analyzer_studio.py:71 | reading `.content` of a directory listing fails with the list's AttributeError |
| Studio.FetchWithFallback | github_analyzer_studio.py:66-70 | the requested ref's blob when its fetch succeeds, else what "master" gives |
| Studio.ReadFileFromRepo | github_analyzer_studio.py:63-74 | a repository failure gives "Error: " and its text; a file fetched and decoded is shown under its path and the rule |
| Studio.NoRetryAfterFetch | github_analyzer_studio.py:66-74 | once the requested ref's fetch succeeds, "master" plays no part: a directory or a decoding failure is reported as an error |
| Studio.FallbackOnce | github_analyzer_studio.py:66-70 | the requested ref is tried first and "master" only once, only when the fetch at the requested ref raised; the blob comes from the last ref tried |
| Studio.ReadFileShowsContent | github_analyzer_studio.py:63-74 | a file fetched at either ref and decoded is shown under its path and a rule of sixty "="; a failed decoding reports its error; a double fetch failure reports the second error |
| Text.Split | github_agent/src/tools/github_tools.py:262 | the parts contain no separator and join back to the input |
| Text.SplitJoin | github_agent/src/tools/github_tools.py:262 | splitting separator-free parts after joining them recovers the parts |
| Text.LStripCharsSpec | github_agent/src/tools/todo_tools.py:74 | `lstrip(chars)` removes exactly the longest prefix of characters from the set |
| Text.RStripCharsSpec | github_agent/src/tools/github_tools.py:262 | `rstrip(chars)` removes exactly the longest suffix of characters from the set |
| Text.NatToStringValue | github_agent/src/tools/analysis_tools.py:54 | the decimal digits of n have value n |
| Text.PyIntOfNatToString | github_agent/src/tools/github_tools.py:280 | `int()` of a number's decimal text is that number |
| Text.PyInt | github_agent/src/tools/github_tools.py:280 | `int()` of a non-empty string of ASCII digits is its value, and `int()` of a blank string fails |
| Text.Repr | github_agent/src/tools/github_tools.py:280 | `repr()` is enclosed in its chosen quote character |
| Text.ReprOfPlain | github_agent/src/tools/github_tools.py:280 | a string without backslashes or control characters is quoted as it is: in single quotes, or in double quotes when it holds a single quote and no double quote |
| Text.ReprEscapes | github_agent/src/tools/github_tools.py:280 | a string holding both quotes is single-quoted with the single quote escaped, and backslashes are doubled |
| Text.ContainsIff | github_agent/src/errors.py:106 | substring containment holds iff the substring occurs at some position |

## Left out

- Sizes in KB (`len(content) / 1024` with one decimal) in `ls` and `write_file` are not modelled. Python float formatting is outside the model, so listing lines and write messages carry the filename only.
- FileTools.NotFoundLines: lists the available files in sorted order. The source lists them in dict insertion order (`list(files.keys())`), which the model's map does not record. The contract states which files are listed but not their order.
- `\w` and `\d` are modelled on ASCII, and `lower()` and `re.IGNORECASE` fold ASCII letters only. Python's Unicode classes for these are wider. `\s` is Python's full whitespace set, the characters for which `str.isspace` holds.
- Ordering.SortBySorted: states that the result is sorted and a permutation of the input, but not that equal keys keep their input order (Python's stability). Its insertion does put an element ahead of the equal keys, but no lemma states this. The model sorts only the entries of one directory, and their names are distinct.
- The `str()` and `repr()` of exceptions are inputs: each failure carries its text. `KeyError('url')` is modelled by its text `'url'`, and the text of a GitHub exception by its status and message.
- These are outside the model:
  - the `add_messages` reducer and the `Command`/`ToolMessage` envelopes, of which the model keeps the message text and the state update;
  - `print` output in config.py;
  - reading `.env` and `int(os.getenv(...))`;
  - the client objects built on import.
- Errors.RetryOnFailure: does not model `time.sleep`, the delay or the backoff factor, which affect timing only. The unreachable re-raise of the last exception after the loop is also not modelled.
- Concurrency of tool calls is not modelled. Each tool runs to completion on the state.
- `search_documentation` is imported and listed by main.py but defined in no source file. It appears only as a tool name in the sub-agent lists.
- Base64 and UTF-8 decoding are not computed. Each fetched file carries the outcome of decoding it: the text, or the text of the exception. The model applies that outcome where the source decodes, after the fallback has chosen the ref.
- The metadata rendering in `get_repository_info` (main and studio versions) is not modelled: stars with thousands separators, dates, topics and licence. The fetch oracle returns the rendered text.
- build_tree: a listing that fails is always the `Denied` outcome, which gives the "access denied" line. In the source only a `GithubException` does that; any other exception raised while listing a subdirectory ends the whole tool with "Error listing structure", and the model does not capture that.
- `PaginatedList` slicing (`results[:max_results]`) is modelled as taking a prefix of the hit list, and no hits for a negative bound. The lazy page fetches behind it are not modelled.
- `state.get(key, default)` defaults are not modelled. In the model every key of the state is present, so the sub-agent gets `current_repo` and `issue_url` as they are; the `""` default could apply only to an absent key.
- The `isinstance(todos_list, list)` check in `write_todos` is not modelled, since the typed parameter is always a list. `str(todo)` is the identity on strings.
- `markdownify` and the summarisation model are oracles in `Web`. `markdownify` gives either the markdown or the text of its exception. The model gives a structured summary, no object (`None`), or raises. A fetch is a response, a timeout or request error (the `Unreachable` outcome), or another exception given by its text. The exception classes themselves are not modelled, only the texts that `str(e)` gives.
- The findings of `extract_stack_trace` keep files and line numbers as two lists of equal length, as the source does.
- Today's date (`get_today_str`, `datetime.now()`) is a parameter in two places. `today` of `search_error_solution` goes into each saved file. `Web.today` goes into the summariser's prompt.
- `think_tool` in search_tools.py is modelled although main.py imports the one from analysis_tools.py.
- The sub-agent prompt and description are stored but not used by `task`, as in the source.
- `create_react_agent`, the model and `state_schema` are the `Runtime` oracle. The sub-agent's own reasoning is not modelled.
- Studio.ShouldContinue: requires a non-empty history. The graph calls it only after the agent node has appended a response; on an empty list the source would raise IndexError.
- Several emoji in errors.py, task_tool.py and tools/github_tools.py are stored mis-encoded. Examples are `âŒ` for ❌, and in github_tools.py the tree connectors `‚îî‚îÄ‚îÄ `, `‚îú‚îÄ‚îÄ ` and `‚îÇ   `, `‚ö†Ô∏è` for ⚠️ and `‚ùå` for ❌. The model uses the intended characters.
- The studio's own state record (`GitHubAgentState` in github_analyzer_studio.py) is not modelled separately. Its nodes use only the message list.
- The uid of saved files (base64 of `uuid4`) is an input: the `uid` parameter, or `Web.uid(k)` for the k-th search result.
- Text.PyInt: accepts ASCII digits only. Python's `int()` also accepts other Unicode decimal digits (for example Arabic-Indic digits), which the model refuses with the ValueError.
- GithubTools.ParseOfSegments: reads the number with Text.PyInt, so a segment of non-ASCII digits is a ValueError in the model.
- GithubTools.ParseNonNumeric: its `PyInt(num).None?` premise includes segments of non-ASCII digits, which Python's `int()` would read as a number.
- Text.Repr: escapes the ASCII control characters, DEL and the Latin-1 non-printables. Other non-printable characters, which Python writes as `\u` or `\U` escapes, are kept verbatim.
- Text.LStripChars: carries no `ensures` of its own. Its contract is the lemma Text.LStripCharsSpec.
