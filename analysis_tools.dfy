/** The text-analysis tools (github_agent/src/tools/analysis_tools.py): the stack-trace
    scanner, the issue-template section detector and the reflection note. Each regular
    expression of the source is written out as a matcher at a position, with the greedy
    backtracking of Python's `re` resolved by hand, and `re.search`/`re.finditer` as scans
    over positions. */
module AnalysisTools {
  import opened Wrappers
  import opened Text

  // ---------------------------------------------------------------------------
  // Character runs: the greedy `X+` and `X*` of the patterns

  /** The character classes the patterns use: `\w`, `\s`, `\d`, `[^"]` and `.`. */
  datatype CharClass = Word | Space | Digit | NonQuote | NonNewline

  predicate InClass(c: char, k: CharClass) {
    match k
    case Word => IsWordChar(c)
    case Space => IsSpace(c)
    case Digit => IsDigit(c)
    case NonQuote => c != '"'
    case NonNewline => c != '\n'
  }

  /** Where a greedy run of class `k` starting at `i` ends. */
  function RunEnd(s: string, i: int, k: CharClass): (j: int)
    requires 0 <= i <= |s|
    ensures i <= j <= |s|
    decreases |s| - i
  {
    if i < |s| && InClass(s[i], k) then RunEnd(s, i + 1, k) else i
  }

  lemma {:induction false} RunEndSpec(s: string, i: int, k: CharClass)
    requires 0 <= i <= |s|
    ensures forall m :: i <= m < RunEnd(s, i, k) ==> InClass(s[m], k)
    ensures RunEnd(s, i, k) < |s| ==> !InClass(s[RunEnd(s, i, k)], k)
    decreases |s| - i
  {
    if i < |s| && InClass(s[i], k) {
      RunEndSpec(s, i + 1, k);
    }
  }

  /** A run that is maximal ends where `RunEnd` says. */
  lemma {:induction false} RunEndAt(s: string, i: int, j: int, k: CharClass)
    requires 0 <= i <= j <= |s|
    requires forall m :: i <= m < j ==> InClass(s[m], k)
    requires j == |s| || !InClass(s[j], k)
    ensures RunEnd(s, i, k) == j
    decreases j - i
  {
    if i < j {
      RunEndAt(s, i + 1, j, k);
    }
  }

  /** `w` (in lower case) occurs at `i` with case ignored, as under `re.IGNORECASE`. */
  predicate CiOccursAt(s: string, w: string, i: int) {
    0 <= i && i + |w| <= |s| && Lower(s[i..i + |w|]) == w
  }

  // ---------------------------------------------------------------------------
  // The error pattern (\w+Error|\w+Exception):\s*(.+)

  /** The two groups of a match of the error pattern; the message is not yet stripped. */
  datatype ErrorMatch = ErrorMatch(errorType: string, message: string)

  /** `s[i..j]` is a word of more than `suffix` that ends with `suffix`. */
  predicate NamedBy(s: string, i: int, j: int, suffix: string)
    requires 0 <= i <= j <= |s|
  {
    j - i > |suffix| && s[j - |suffix|..j] == suffix
  }

  /** The last position in `[lo, n)` that is not a newline, or -1. */
  function LastNonNewline(s: string, lo: int, n: int): (r: int)
    requires 0 <= lo && n <= |s|
    ensures r == -1 || (lo <= r < n && s[r] != '\n')
    decreases n - lo
  {
    if n <= lo then -1
    else if s[n - 1] != '\n' then n - 1
    else LastNonNewline(s, lo, n - 1)
  }

  /** A match of the error pattern starting at `i`. The word group must run up to a colon,
      so it is the whole run of word characters from `i`. `\s*` first takes all the
      whitespace after the colon; when nothing follows it, it gives back characters until
      `.+` can start on one that is not a newline. */
  function ErrorMatchAt(s: string, i: int): (r: Option<ErrorMatch>)
    requires 0 <= i <= |s|
    ensures r.Some? ==> |r.value.errorType| > 5 && r.value.message != ""
  {
    var j := RunEnd(s, i, Word);
    if j < |s| && s[j] == ':' && (NamedBy(s, i, j, "Error") || NamedBy(s, i, j, "Exception")) then
      var m := RunEnd(s, j + 1, Space);
      RunEndSpec(s, j + 1, Space);
      var start := if m < |s| then m else LastNonNewline(s, j + 1, |s|);
      if start >= 0 then Some(ErrorMatch(s[i..j], s[start..RunEnd(s, start, NonNewline)])) else None
    else None
  }

  /** A match names an error type of word characters ending in `Error` or `Exception`,
      followed by a colon in the text. */
  lemma ErrorMatchAtType(s: string, i: int)
    requires 0 <= i <= |s|
    ensures ErrorMatchAt(s, i).Some? ==>
              var t := ErrorMatchAt(s, i).value.errorType;
              OccursAt(s, t + ":", i)
              && (forall m :: 0 <= m < |t| ==> IsWordChar(t[m]))
              && ((|t| > 5 && t[|t| - 5..] == "Error") || (|t| > 9 && t[|t| - 9..] == "Exception"))
  {
    if ErrorMatchAt(s, i).Some? {
      var j := RunEnd(s, i, Word);
      RunEndSpec(s, i, Word);
      var t := s[i..j];
      assert ErrorMatchAt(s, i).value.errorType == t;
      assert s[i..j + 1] == t + ":";
    }
  }

  /** The message of a match is on one line. */
  lemma ErrorMatchAtMessage(s: string, i: int)
    requires 0 <= i <= |s|
    ensures ErrorMatchAt(s, i).Some? ==> '\n' !in ErrorMatchAt(s, i).value.message
  {
    if ErrorMatchAt(s, i).Some? {
      var j := RunEnd(s, i, Word);
      var m := RunEnd(s, j + 1, Space);
      var start := if m < |s| then m else LastNonNewline(s, j + 1, |s|);
      RunEndSpec(s, start, NonNewline);
      var msg := s[start..RunEnd(s, start, NonNewline)];
      assert ErrorMatchAt(s, i).value.message == msg;
      assert forall p :: 0 <= p < |msg| ==> msg[p] == s[start + p];
    }
  }

  /** `re.search`: the match at the first position from `i` up to `n` where `matchAt`
      finds one. */
  function FirstMatch<T>(matchAt: int -> Option<T>, i: int, n: int): Option<T>
    decreases n - i
  {
    if matchAt(i).Some? then matchAt(i)
    else if i >= n then None
    else FirstMatch(matchAt, i + 1, n)
  }

  /** The search reports the leftmost match: no match starts earlier, and there is none
      when it reports none. */
  lemma {:induction false} FirstMatchIsLeftmost<T>(matchAt: int -> Option<T>, i: int, n: int)
    requires i <= n
    ensures FirstMatch(matchAt, i, n).Some? ==>
              exists p :: i <= p <= n && matchAt(p) == FirstMatch(matchAt, i, n)
                          && forall q :: i <= q < p ==> matchAt(q).None?
    ensures FirstMatch(matchAt, i, n).None? ==> forall q :: i <= q <= n ==> matchAt(q).None?
    decreases n - i
  {
    if matchAt(i).None? && i < n {
      FirstMatchIsLeftmost(matchAt, i + 1, n);
      if FirstMatch(matchAt, i + 1, n).Some? {
        var p :| i + 1 <= p <= n && matchAt(p) == FirstMatch(matchAt, i + 1, n)
                 && forall q :: i + 1 <= q < p ==> matchAt(q).None?;
        assert forall q :: i <= q < p ==> matchAt(q).None?;
      }
    }
  }

  /** The error pattern tried at every position of `s`. */
  function ErrorMatcher(s: string): int -> Option<ErrorMatch> {
    p => if 0 <= p <= |s| then ErrorMatchAt(s, p) else None
  }

  /** `re.search` of the error pattern from position `i`. */
  function FirstErrorMatch(s: string, i: int): Option<ErrorMatch>
    requires 0 <= i <= |s|
  {
    FirstMatch(ErrorMatcher(s), i, |s|)
  }

  /** The first error match is a match, at a position before which nothing matches. */
  lemma FirstErrorMatchIsLeftmost(s: string, i: int)
    requires 0 <= i <= |s|
    ensures FirstErrorMatch(s, i).Some? ==>
              exists p :: i <= p <= |s| && ErrorMatchAt(s, p) == FirstErrorMatch(s, i)
                          && forall q :: i <= q < p ==> ErrorMatchAt(s, q).None?
    ensures FirstErrorMatch(s, i).None? ==> forall q :: i <= q <= |s| ==> ErrorMatchAt(s, q).None?
  {
    var f := ErrorMatcher(s);
    FirstMatchIsLeftmost(f, i, |s|);
    assert forall q :: i <= q <= |s| ==> f(q) == ErrorMatchAt(s, q);
  }

  /** The error pattern matches at `i` when the word run from `i` ends in `Error` at a
      colon and something other than whitespace follows. */
  lemma ErrorMatchAtWhen(s: string, i: int, j: int, start: int)
    requires 0 <= i < j < start < |s|
    requires RunEnd(s, i, Word) == j && s[j] == ':' && NamedBy(s, i, j, "Error")
    requires RunEnd(s, j + 1, Space) == start
    ensures ErrorMatchAt(s, i) == Some(ErrorMatch(s[i..j], s[start..RunEnd(s, start, NonNewline)]))
  {
  }

  /** In `<name>Error: <message>` the word run is the type, ending in `Error` at the
      colon. */
  lemma ErrorLineType(name: string, message: string)
    requires |name| > 0 && forall m :: 0 <= m < |name| ==> IsWordChar(name[m])
    ensures var s := name + "Error: " + message; var n := |name| + 5;
            n < |s| && RunEnd(s, 0, Word) == n && s[n] == ':' && NamedBy(s, 0, n, "Error") && s[..n] == name + "Error"
  {
    var t := name + "Error";
    var s := name + "Error: " + message;
    assert s == t + ": " + message;
    assert forall m :: 0 <= m < |t| ==> IsWordChar(s[m]) by {
      forall m | 0 <= m < |t| ensures IsWordChar(s[m]) {
        if m < |name| { assert s[m] == name[m]; } else { assert s[m] == "Error"[m - |name|]; }
      }
    }
    assert s[|t|] == ':';
    RunEndAt(s, 0, |t|, Word);
    assert s[..|t|] == t;
    assert s[|t| - 5..|t|] == "Error";
  }

  /** In `<name>Error: <message>` the message starts after the one space and runs to the
      end. */
  lemma ErrorLineMessage(name: string, message: string)
    requires |message| > 0 && !IsSpace(message[0]) && '\n' !in message
    ensures var s := name + "Error: " + message; var start := |name| + 7;
            start < |s| && RunEnd(s, start - 1, Space) == start && RunEnd(s, start, NonNewline) == |s|
            && s[start..] == message
  {
    var s := name + "Error: " + message;
    var start := |name| + 7;
    assert s == (name + "Error:") + " " + message;
    assert s[start - 1] == ' ' && s[start] == message[0];
    RunEndAt(s, start - 1, start, Space);
    assert forall m :: start <= m < |s| ==> s[m] == message[m - start];
    RunEndAt(s, start, |s|, NonNewline);
    assert s[start..] == message;
  }

  /** A line `<name>Error: <message>` at the start of a text is read back as that type and
      that message. */
  lemma ErrorLineIsRead(name: string, message: string)
    requires |name| > 0 && forall m :: 0 <= m < |name| ==> IsWordChar(name[m])
    requires |message| > 0 && !IsSpace(message[0]) && '\n' !in message
    ensures FirstErrorMatch(name + "Error: " + message, 0) == Some(ErrorMatch(name + "Error", message))
  {
    var s := name + "Error: " + message;
    ErrorLineType(name, message);
    ErrorLineMessage(name, message);
    var n := |name| + 5;
    ErrorMatchAtWhen(s, 0, n, n + 2);
    assert s[0..n] == s[..n] && s[n + 2..|s|] == s[n + 2..];
    assert ErrorMatchAt(s, 0) == Some(ErrorMatch(name + "Error", message));
  }

  // ---------------------------------------------------------------------------
  // The file pattern File\s+"([^"]+)",\s+line\s+(\d+)

  /** One match of the file pattern: the path, `int()` of the digits, and where the match
      ends. */
  datatype FileMatch = FileMatch(path: string, line: nat, end: int)

  /** A match of the file pattern starting at `i`. Every quantifier is followed by a
      character it cannot match, so there is no backtracking. */
  function FileMatchAt(s: string, i: int): (r: Option<FileMatch>)
    requires 0 <= i <= |s|
    ensures r.Some? ==> i < r.value.end <= |s|
  {
    if !OccursAt(s, "File", i) then None
    else
      var a := RunEnd(s, i + 4, Space);
      if a == i + 4 || a == |s| || s[a] != '"' then None
      else
        var q := RunEnd(s, a + 1, NonQuote);
        if q == a + 1 || q + 1 >= |s| || s[q + 1] != ',' then None
        else
          var b := RunEnd(s, q + 2, Space);
          if b == q + 2 || !OccursAt(s, "line", b) then None
          else
            var c := RunEnd(s, b + 4, Space);
            var d := RunEnd(s, c, Digit);
            if c == b + 4 || d == c then None
            else
              RunEndSpec(s, c, Digit);
              var digits := s[c..d];
              assert forall t :: 0 <= t < |digits| ==> digits[t] == s[c + t];
              Some(FileMatch(s[a + 1..q], DigitsValue(digits), d))
  }

  /** `re.finditer` of the file pattern from `i`: the next search starts where a match
      ends. */
  function FileMatches(s: string, i: int): seq<FileMatch>
    requires 0 <= i <= |s|
    decreases |s| - i
  {
    if i == |s| then []
    else
      match FileMatchAt(s, i)
      case Some(m) => [m] + FileMatches(s, m.end)
      case None => FileMatches(s, i + 1)
  }

  /** The reference `File "<path>", line <n>` that a Python traceback prints. */
  function FileReference(path: string, line: nat): string {
    "File \"" + path + "\", line " + NatToString(line)
  }

  /** The file pattern matches at `i` when each of its parts does, in turn. */
  lemma FileMatchAtWhen(s: string, i: int, a: int, q: int, b: int, c: int, d: int)
    requires 0 <= i && i + 4 < a && a + 1 < q && q + 2 < b && b + 4 < c < d <= |s|
    requires OccursAt(s, "File", i) && RunEnd(s, i + 4, Space) == a && s[a] == '"'
    requires RunEnd(s, a + 1, NonQuote) == q && s[q + 1] == ','
    requires RunEnd(s, q + 2, Space) == b && OccursAt(s, "line", b)
    requires RunEnd(s, b + 4, Space) == c && RunEnd(s, c, Digit) == d
    requires forall t :: c <= t < d ==> IsDigit(s[t])
    ensures FileMatchAt(s, i) == Some(FileMatch(s[a + 1..q], DigitsValue(s[c..d]), d))
  {
    assert !(a == i + 4 || a == |s| || s[a] != '"');
    assert !(q == a + 1 || q + 1 >= |s| || s[q + 1] != ',');
    assert !(b == q + 2 || !OccursAt(s, "line", b));
    assert !(c == b + 4 || d == c);
  }

  /** The pieces of a reference, position by position. */
  lemma FileReferenceLayout(path: string, line: nat)
    ensures var s := FileReference(path, line); var q := 6 + |path|; var digits := NatToString(line);
            |s| == q + 8 + |digits|
            && s[..4] == "File" && s[4] == ' ' && s[5] == '"'
            && (forall m :: 6 <= m < q ==> s[m] == path[m - 6])
            && s[q] == '"' && s[q + 1] == ',' && s[q + 2] == ' ' && s[q + 3..q + 7] == "line" && s[q + 7] == ' '
            && (forall m :: q + 8 <= m < |s| ==> s[m] == digits[m - q - 8])
            && s[6..q] == path && s[q + 8..] == digits
  {
    var s := FileReference(path, line);
    var head := "File \"";
    var mid := "\", line ";
    assert s == head + path + mid + NatToString(line);
    assert |head| == 6 && |mid| == 8;
  }

  /** A reference is read back as its path and line number, and nothing else. */
  lemma FileReferenceIsRead(path: string, line: nat)
    requires |path| > 0 && '"' !in path
    ensures FileMatches(FileReference(path, line), 0) == [FileMatch(path, line, |FileReference(path, line)|)]
  {
    var s := FileReference(path, line);
    var digits := NatToString(line);
    var q := 6 + |path|;
    FileReferenceLayout(path, line);
    RunEndAt(s, 4, 5, Space);
    RunEndAt(s, 6, q, NonQuote);
    RunEndAt(s, q + 2, q + 3, Space);
    assert !IsSpace(s[q + 8]);
    RunEndAt(s, q + 7, q + 8, Space);
    RunEndAt(s, q + 8, |s|, Digit);
    NatToStringValue(line);
    FileMatchAtWhen(s, 0, 5, q, q + 3, q + 8, |s|);
    assert s[q + 8..|s|] == digits;
    assert FileMatches(s, |s|) == [];
  }

  // ---------------------------------------------------------------------------
  // The function pattern in\s+(\w+)\s*\(

  /** A match of the function pattern at `i`: the name and where the match ends. */
  function FunctionMatchAt(s: string, i: int): (r: Option<(string, int)>)
    requires 0 <= i <= |s|
    ensures r.Some? ==> i < r.value.1 <= |s|
  {
    if !OccursAt(s, "in", i) then None
    else
      var a := RunEnd(s, i + 2, Space);
      var b := RunEnd(s, a, Word);
      var c := RunEnd(s, b, Space);
      if a == i + 2 || b == a || c == |s| || s[c] != '(' then None
      else Some((s[a..b], c + 1))
  }

  /** The names `re.finditer` of the function pattern finds from `i`, in text order. */
  function FunctionNames(s: string, i: int): seq<string>
    requires 0 <= i <= |s|
    decreases |s| - i
  {
    if i == |s| then []
    else
      match FunctionMatchAt(s, i)
      case Some(m) => [m.0] + FunctionNames(s, m.1)
      case None => FunctionNames(s, i + 1)
  }

  /** A call `in <name>(` is read back as that one name. */
  lemma FunctionCallIsRead(name: string)
    requires |name| > 0 && forall m :: 0 <= m < |name| ==> IsWordChar(name[m])
    ensures FunctionNames("in " + name + "(", 0) == [name]
  {
    var s := "in " + name + "(";
    FunctionCallMatch(name);
    assert FunctionNames(s, |s|) == [];
  }

  lemma FunctionCallMatch(name: string)
    requires |name| > 0 && forall m :: 0 <= m < |name| ==> IsWordChar(name[m])
    ensures FunctionMatchAt("in " + name + "(", 0) == Some((name, |name| + 4))
  {
    var s := "in " + name + "(";
    var b := 3 + |name|;
    assert s[0..2] == "in";
    assert s[3] == name[0];
    RunEndAt(s, 2, 3, Space);
    forall m | 3 <= m < b ensures InClass(s[m], Word) {
      assert s[m] == name[m - 3];
    }
    RunEndAt(s, 3, b, Word);
    RunEndAt(s, b, b, Space);
    assert s[b] == '(';
    FunctionMatchAtWhen(s, 0, 3, b);
    assert s[3..b] == name;
  }

  /** The function pattern matches at `i` when a call follows `in` and some blanks. */
  lemma FunctionMatchAtWhen(s: string, i: int, a: int, b: int)
    requires 0 <= i && i + 2 < a < b < |s|
    requires OccursAt(s, "in", i) && RunEnd(s, i + 2, Space) == a && RunEnd(s, a, Word) == b
    requires RunEnd(s, b, Space) == b && s[b] == '('
    ensures FunctionMatchAt(s, i) == Some((s[a..b], b + 1))
  {
  }

  // ---------------------------------------------------------------------------
  // The traceback header Traceback\s*\(most recent call last\):

  const TracebackWord := "traceback"
  const TracebackTail := "(most recent call last):"

  /** The header starts at `i`, case ignored. */
  predicate TracebackAt(s: string, i: int)
    requires 0 <= i <= |s|
  {
    CiOccursAt(s, TracebackWord, i) && CiOccursAt(s, TracebackTail, RunEnd(s, i + |TracebackWord|, Space))
  }

  /** `re.search(traceback_pattern, text, re.IGNORECASE) is not None`. */
  predicate HasTraceback(s: string) {
    exists i :: 0 <= i <= |s| && TracebackAt(s, i)
  }

  // ---------------------------------------------------------------------------
  // extract_stack_trace

  /** The `findings` dictionary. */
  datatype Findings = Findings(
    errorType: Option<string>,
    errorMessage: Option<string>,
    files: seq<string>,
    lineNumbers: seq<nat>,
    functions: seq<string>)

  /** The findings of a text: the first error match, every file reference in order and
      the function names without repeats. */
  function Scan(text: string): (f: Findings)
    ensures f.errorType.Some? <==> f.errorMessage.Some?
    ensures |f.files| == |f.lineNumbers| == |FileMatches(text, 0)|
    ensures forall x :: x in f.functions <==> x in FunctionNames(text, 0)
    ensures forall i, j :: 0 <= i < j < |f.functions| ==> f.functions[i] != f.functions[j]
  {
    DedupSpec(FunctionNames(text, 0));
    var e := FirstErrorMatch(text, 0);
    var fm := FileMatches(text, 0);
    Findings(
      if e.Some? then Some(e.value.errorType) else None,
      if e.Some? then Some(Strip(e.value.message)) else None,
      seq(|fm|, k requires 0 <= k < |fm| => fm[k].path),
      seq(|fm|, k requires 0 <= k < |fm| => fm[k].line),
      Dedup(FunctionNames(text, 0)))
  }

  /** The first half of `extract_stack_trace`: the search and the three loops that fill
      `findings`. */
  method ScanFindings(text: string) returns (f: Findings)
    ensures f == Scan(text)
  {
    var e := FirstErrorMatch(text, 0);
    var errorType: Option<string> := None;
    var errorMessage: Option<string> := None;
    if e.Some? {
      errorType := Some(e.value.errorType);
      errorMessage := Some(Strip(e.value.message));
    }
    var fm := FileMatches(text, 0);
    var files: seq<string> := [];
    var lineNumbers: seq<nat> := [];
    for k := 0 to |fm|
      invariant |files| == k && forall j :: 0 <= j < k ==> files[j] == fm[j].path
      invariant |lineNumbers| == k && forall j :: 0 <= j < k ==> lineNumbers[j] == fm[j].line
    {
      files := files + [fm[k].path];
      lineNumbers := lineNumbers + [fm[k].line];
    }
    var names := FunctionNames(text, 0);
    var functions: seq<string> := [];
    for k := 0 to |names|
      invariant functions == Dedup(names[..k])
    {
      assert names[..k + 1][..k] == names[..k];
      if names[k] !in functions {
        functions := functions + [names[k]];
      }
    }
    assert names[..|names|] == names;
    f := Findings(errorType, errorMessage, files, lineNumbers, functions);
  }

  /** A falsy `None` or empty string. */
  predicate Truthy(o: Option<string>) {
    o.Some? && o.value != ""
  }

  const ReportHeading := "# Stack Trace Analysis\n"
  const TypeLabel := "**Error Type:** "
  const MessageLabel := "**Error Message:** "
  const FilesHeading := "## Files Mentioned"
  const FunctionsHeading := "## Functions in Call Stack"
  const NextSteps := ["💡 Next steps:", "1. Search code for mentioned files", "2. Read the specific file and line",
                      "3. Search online for the error message"]
  const NoTraceText := "⚠️ No clear stack trace found in the text."

  function FileLine(path: string, line: nat): string {
    "- `" + path + "` at line " + NatToString(line)
  }

  function FunctionLine(name: string): string {
    "- `" + name + "()`"
  }

  /** `zip(files, line_numbers)`, one line per pair. */
  function FileLines(files: seq<string>, lineNumbers: seq<nat>): seq<string> {
    var n := if |files| < |lineNumbers| then |files| else |lineNumbers|;
    seq(n, k requires 0 <= k < n => FileLine(files[k], lineNumbers[k]))
  }

  function FunctionLines(functions: seq<string>): seq<string> {
    seq(|functions|, k requires 0 <= k < |functions| => FunctionLine(functions[k]))
  }

  function TypeLines(f: Findings): seq<string> {
    if Truthy(f.errorType) then [TypeLabel + f.errorType.value] else []
  }

  function MessageLines(f: Findings): seq<string> {
    if Truthy(f.errorMessage) then [MessageLabel + f.errorMessage.value + "\n"] else []
  }

  function FileSection(f: Findings): seq<string> {
    if f.files != [] then [FilesHeading] + FileLines(f.files, f.lineNumbers) + [""] else []
  }

  function FunctionSection(f: Findings): seq<string> {
    if f.functions != [] then [FunctionsHeading] + FunctionLines(f.functions) + [""] else []
  }

  /** The `output` list of the report. */
  function ReportLines(f: Findings): seq<string> {
    [ReportHeading] + TypeLines(f) + MessageLines(f) + FileSection(f) + FunctionSection(f) + NextSteps
  }

  /** What `extract_stack_trace(text)` returns. */
  function StackTraceReport(text: string): (r: string)
    ensures !Truthy(Scan(text).errorType) && !HasTraceback(text) ==> r == NoTraceText
    ensures Truthy(Scan(text).errorType) || HasTraceback(text) ==> ReportHeading <= r
  {
    var f := Scan(text);
    JoinStartsWithFirst(ReportLines(f), "\n");
    if !Truthy(f.errorType) && !HasTraceback(text) then NoTraceText else JoinLines(ReportLines(f))
  }

  /** The loop over `zip(findings['files'], findings['line_numbers'])`. */
  method FileLinesOf(files: seq<string>, lineNumbers: seq<nat>) returns (out: seq<string>)
    ensures out == FileLines(files, lineNumbers)
  {
    var n := if |files| < |lineNumbers| then |files| else |lineNumbers|;
    out := [];
    for k := 0 to n
      invariant |out| == k && forall j :: 0 <= j < k ==> out[j] == FileLine(files[j], lineNumbers[j])
    {
      out := out + [FileLine(files[k], lineNumbers[k])];
    }
  }

  /** The loop over `findings['functions']`. */
  method FunctionLinesOf(functions: seq<string>) returns (out: seq<string>)
    ensures out == FunctionLines(functions)
  {
    out := [];
    for k := 0 to |functions|
      invariant |out| == k && forall j :: 0 <= j < k ==> out[j] == FunctionLine(functions[j])
    {
      out := out + [FunctionLine(functions[k])];
    }
  }

  /** The second half of `extract_stack_trace`: the `output` list, built by appending. */
  method RenderReport(f: Findings) returns (output: seq<string>)
    ensures output == ReportLines(f)
  {
    output := [ReportHeading];
    if Truthy(f.errorType) {
      output := output + [TypeLabel + f.errorType.value];
    }
    if Truthy(f.errorMessage) {
      output := output + [MessageLabel + f.errorMessage.value + "\n"];
    }
    assert output == [ReportHeading] + TypeLines(f) + MessageLines(f);
    var files: seq<string> := [];
    if f.files != [] {
      var lines := FileLinesOf(f.files, f.lineNumbers);
      files := [FilesHeading] + lines + [""];
    }
    assert files == FileSection(f);
    output := output + files;
    var functions: seq<string> := [];
    if f.functions != [] {
      var lines := FunctionLinesOf(f.functions);
      functions := [FunctionsHeading] + lines + [""];
    }
    assert functions == FunctionSection(f);
    output := output + functions;
    output := output + NextSteps;
  }

  /** `extract_stack_trace(text)`. */
  method ExtractStackTrace(text: string) returns (report: string)
    ensures report == StackTraceReport(text)
  {
    var f := ScanFindings(text);
    var hasTraceback := HasTraceback(text);
    if !Truthy(f.errorType) && !hasTraceback {
      return NoTraceText;
    }
    var output := RenderReport(f);
    report := JoinLines(output);
  }

  /** A report starts with its heading. */
  lemma ReportStartsWithHeading(f: Findings)
    ensures JoinLines(ReportLines(f))[..|ReportHeading|] == ReportHeading
  {
    var lines := ReportLines(f);
    assert lines == [ReportHeading] + lines[1..];
    JoinCons(ReportHeading, lines[1..], "\n");
  }

  /** The text has no stack trace exactly when the error pattern does not match and there
      is no traceback header. */
  lemma NoTraceIff(text: string)
    ensures StackTraceReport(text) == NoTraceText <==> FirstErrorMatch(text, 0).None? && !HasTraceback(text)
  {
    var e := FirstErrorMatch(text, 0);
    if e.Some? {
      FirstErrorMatchIsLeftmost(text, 0);
      var p :| 0 <= p <= |text| && ErrorMatchAt(text, p) == e;
      ErrorMatchAtType(text, p);
      assert Truthy(Scan(text).errorType);
    }
    if e.Some? || HasTraceback(text) {
      ReportStartsWithHeading(Scan(text));
      assert NoTraceText[0] != ReportHeading[0];
    }
  }

  /** Some line starts with `lead`. */
  predicate HasLineStarting(lines: seq<string>, lead: string) {
    exists k :: 0 <= k < |lines| && lead <= lines[k]
  }

  lemma HasLineConcat(a: seq<string>, b: seq<string>, lead: string)
    ensures HasLineStarting(a + b, lead) <==> HasLineStarting(a, lead) || HasLineStarting(b, lead)
  {
    if HasLineStarting(a + b, lead) {
      var k :| 0 <= k < |a + b| && lead <= (a + b)[k];
      if k >= |a| { assert b[k - |a|] == (a + b)[k]; } else { assert a[k] == (a + b)[k]; }
    }
    if HasLineStarting(a, lead) {
      var k :| 0 <= k < |a| && lead <= a[k];
      assert (a + b)[k] == a[k];
    }
    if HasLineStarting(b, lead) {
      var k :| 0 <= k < |b| && lead <= b[k];
      assert (a + b)[|a| + k] == b[k];
      assert 0 <= |a| + k < |a + b| && lead <= (a + b)[|a| + k];
    }
  }

  /** No line of `lines` starts with the first character of `lead`. */
  lemma NoLineStarting(lines: seq<string>, lead: string)
    requires |lead| > 0
    requires forall k :: 0 <= k < |lines| ==> |lines[k]| == 0 || lines[k][0] != lead[0]
    ensures !HasLineStarting(lines, lead)
  {
  }

  /** The lines outside the type and message lines start with neither lead. */
  lemma OtherLinesUnlabelled(f: Findings, lead: string)
    requires |lead| > 0 && lead[0] == '*'
    ensures !HasLineStarting([ReportHeading], lead) && !HasLineStarting(NextSteps, lead)
    ensures !HasLineStarting(FileSection(f), lead) && !HasLineStarting(FunctionSection(f), lead)
  {
    var fl := FileLines(f.files, f.lineNumbers);
    var fn := FunctionLines(f.functions);
    assert forall k :: 0 <= k < |fl| ==> fl[k][0] == '-';
    assert forall k :: 0 <= k < |fn| ==> fn[k][0] == '-';
    NoLineStarting([ReportHeading], lead);
    NoLineStarting(NextSteps, lead);
    NoLineStarting(FileSection(f), lead);
    NoLineStarting(FunctionSection(f), lead);
  }

  /** The type line does not start with the message label, nor the other way round. */
  lemma LabelsDiffer(f: Findings)
    ensures !HasLineStarting(TypeLines(f), MessageLabel) && !HasLineStarting(MessageLines(f), TypeLabel)
  {
    if Truthy(f.errorType) {
      assert TypeLines(f)[0][8] != MessageLabel[8];
    }
    if Truthy(f.errorMessage) {
      assert MessageLines(f)[0][8] != TypeLabel[8];
    }
  }

  /** In a report-shaped list only the one part that may start with `lead` decides. */
  lemma OnlyPartWithLead(h: seq<string>, t: seq<string>, m: seq<string>, a: seq<string>, b: seq<string>,
                         c: seq<string>, lead: string, pick: nat)
    requires pick < 2
    requires !HasLineStarting(h, lead) && !HasLineStarting(a, lead) && !HasLineStarting(b, lead)
    requires !HasLineStarting(c, lead)
    requires pick == 0 ==> !HasLineStarting(m, lead)
    requires pick == 1 ==> !HasLineStarting(t, lead)
    ensures HasLineStarting(h + t + m + a + b + c, lead) <==> HasLineStarting(if pick == 0 then t else m, lead)
  {
    HasLineConcat(h + t + m + a + b, c, lead);
    HasLineConcat(h + t + m + a, b, lead);
    HasLineConcat(h + t + m, a, lead);
    HasLineConcat(h + t, m, lead);
    HasLineConcat(h, t, lead);
  }

  /** The type line is there exactly when there is an error type. */
  lemma TypeLineOnlyWhenPresent(f: Findings)
    ensures HasLineStarting(ReportLines(f), TypeLabel) <==> Truthy(f.errorType)
  {
    OtherLinesUnlabelled(f, TypeLabel);
    LabelsDiffer(f);
    OnlyPartWithLead([ReportHeading], TypeLines(f), MessageLines(f), FileSection(f), FunctionSection(f),
                     NextSteps, TypeLabel, 0);
    if Truthy(f.errorType) {
      assert TypeLabel <= TypeLines(f)[0];
    }
  }

  /** The message line is there exactly when the stripped message is not empty. */
  lemma MessageLineOnlyWhenPresent(f: Findings)
    ensures HasLineStarting(ReportLines(f), MessageLabel) <==> Truthy(f.errorMessage)
  {
    OtherLinesUnlabelled(f, MessageLabel);
    LabelsDiffer(f);
    OnlyPartWithLead([ReportHeading], TypeLines(f), MessageLines(f), FileSection(f), FunctionSection(f),
                     NextSteps, MessageLabel, 1);
    if Truthy(f.errorMessage) {
      assert MessageLabel <= MessageLines(f)[0];
    }
  }

  /** Neither section heading is the report heading, a labelled line or a next-steps line. */
  lemma HeadingsAreNotOtherLines(f: Findings)
    ensures FilesHeading !in [ReportHeading] + TypeLines(f) + MessageLines(f) + NextSteps
    ensures FunctionsHeading !in [ReportHeading] + TypeLines(f) + MessageLines(f) + NextSteps
  {
    assert ReportHeading[1] != FilesHeading[1] && ReportHeading[1] != FunctionsHeading[1];
    if Truthy(f.errorType) {
      assert TypeLines(f)[0][0] == '*';
    }
    if Truthy(f.errorMessage) {
      assert MessageLines(f)[0][0] == '*';
    }
    assert forall k :: 0 <= k < |NextSteps| ==> NextSteps[k][0] != '#';
  }

  /** The lines of each section other than its heading start with `-` or are empty. */
  lemma SectionBodiesAreNotHeadings(f: Findings)
    ensures FilesHeading !in FunctionSection(f) && FunctionsHeading !in FileSection(f)
  {
    var fl := FileLines(f.files, f.lineNumbers);
    var fn := FunctionLines(f.functions);
    assert forall k :: 0 <= k < |fl| ==> fl[k][0] == '-';
    assert forall k :: 0 <= k < |fn| ==> fn[k][0] == '-';
    assert FilesHeading[4] != FunctionsHeading[4];
  }

  /** The files heading is there exactly when some file was found, and the functions
      heading exactly when some function was. */
  lemma HeadingsOnlyWhenPresent(f: Findings)
    ensures FilesHeading in ReportLines(f) <==> f.files != []
    ensures FunctionsHeading in ReportLines(f) <==> f.functions != []
  {
    HeadingsAreNotOtherLines(f);
    SectionBodiesAreNotHeadings(f);
    var head := [ReportHeading] + TypeLines(f) + MessageLines(f);
    assert ReportLines(f) == head + FileSection(f) + FunctionSection(f) + NextSteps;
    assert FilesHeading !in head && FunctionsHeading !in head by {
      assert head + NextSteps == [ReportHeading] + TypeLines(f) + MessageLines(f) + NextSteps;
    }
    if f.files != [] {
      assert FileSection(f)[0] == FilesHeading;
    }
    if f.functions != [] {
      assert FunctionSection(f)[0] == FunctionsHeading;
    }
  }

  // ---------------------------------------------------------------------------
  // think_tool

  const NotePrefix := "💭 Reflection recorded: "

  /** The reflection note: a reflection of at most 100 characters verbatim, a longer one
      cut to its first 100 characters followed by `...`. */
  function ThinkNote(reflection: string): (r: string)
    ensures |r| >= |NotePrefix| && r[..|NotePrefix|] == NotePrefix
    ensures |reflection| <= 100 ==> r[|NotePrefix|..] == reflection
    ensures |reflection| > 100 ==>
              |r| == |NotePrefix| + 103 && r[|NotePrefix|..|NotePrefix| + 100] == reflection[..100]
              && r[|NotePrefix| + 100..] == "..."
  {
    if |reflection| > 100 then NotePrefix + reflection[..100] + "..." else NotePrefix + reflection
  }

  // ---------------------------------------------------------------------------
  // parse_error_from_issue

  /** The issue-template sections, in the order of `section_patterns`. */
  datatype Section = Environment | Steps | Expected | Actual | Version

  const SectionOrder := [Environment, Steps, Expected, Actual, Version]

  /** `section_name.title()`. */
  function SectionTitle(sec: Section): string {
    match sec
    case Environment => "Environment"
    case Steps => "Steps"
    case Expected => "Expected"
    case Actual => "Actual"
    case Version => "Version"
  }

  /** `##?\s*` followed by `w`, case ignored, at `i`. If `##` is followed by neither
      whitespace nor `w`, giving back the second `#` cannot help, as `w` starts with a
      letter. */
  predicate HeadingAt(s: string, i: int, w: string)
    requires 0 <= i <= |s|
  {
    i < |s| && s[i] == '#'
    && var a := if i + 1 < |s| && s[i + 1] == '#' then i + 2 else i + 1;
       CiOccursAt(s, w, RunEnd(s, a, Space))
  }

  /** `version[:：]\s*([^\n]+)` at `i`: giving back whitespace, `\s*` can leave `[^\n]+`
      any following character that is not a newline. */
  predicate VersionAt(s: string, i: int)
    requires 0 <= i <= |s|
  {
    CiOccursAt(s, "version", i) && i + 7 < |s| && (s[i + 7] == ':' || s[i + 7] == '：')
    && exists k :: i + 8 <= k < |s| && s[k] != '\n' && forall j :: i + 8 <= j < k ==> IsSpace(s[j])
  }

  /** The pattern of a section matches at `i`. */
  predicate SectionAt(s: string, i: int, sec: Section)
    requires 0 <= i <= |s|
  {
    match sec
    case Environment => HeadingAt(s, i, "environment")
    case Steps => HeadingAt(s, i, "steps to reproduce") || HeadingAt(s, i, "reproduction")
    case Expected => HeadingAt(s, i, "expected behavior") || HeadingAt(s, i, "expected result")
    case Actual => HeadingAt(s, i, "actual behavior") || HeadingAt(s, i, "actual result")
    case Version => VersionAt(s, i)
  }

  /** `re.search(pattern, issue_content, re.IGNORECASE)` found something. */
  predicate SectionFound(s: string, sec: Section) {
    exists i :: 0 <= i <= |s| && SectionAt(s, i, sec)
  }

  /** The detected sections among `secs`, in their order. */
  function FoundSections(s: string, secs: seq<Section>): seq<Section>
    decreases |secs|
  {
    if secs == [] then []
    else
      var init := FoundSections(s, secs[..|secs| - 1]);
      if SectionFound(s, secs[|secs| - 1]) then init + [secs[|secs| - 1]] else init
  }

  function StatusLine(sec: Section): string {
    "- " + SectionTitle(sec) + ": ✅ Found"
  }

  const AnalysisHeading := "# Issue Error Analysis\n"
  const StructureHeading := "\n## Issue Structure"
  // The lines below are each one line of the report; the numbered and marked heads are
  // separate literals so that a line's first character can be stated in lemmas.
  const NoSectionsLine := "- ⚠️ " + "No standard issue template sections found"
  const Recommendation := ["\n💡 Recommendation:", "1. " + "Use read_file() to access the full issue details",
                           "2. " + "Search for the specific file mentioned in stack trace",
                           "3. " + "Research the error message online"]

  function StatusLines(found: seq<Section>): seq<string> {
    if found == [] then [NoSectionsLine]
    else seq(|found|, k requires 0 <= k < |found| => StatusLine(found[k]))
  }

  /** The `output` list of `parse_error_from_issue`. */
  function IssueAnalysisLines(content: string): seq<string> {
    [AnalysisHeading, StackTraceReport(content), StructureHeading]
    + StatusLines(FoundSections(content, SectionOrder)) + Recommendation
  }

  /** The loop over `section_patterns`: the sections whose pattern matches, in order. */
  method DetectSections(content: string) returns (found: seq<Section>)
    ensures found == FoundSections(content, SectionOrder)
  {
    found := [];
    for k := 0 to |SectionOrder|
      invariant found == FoundSections(content, SectionOrder[..k])
    {
      assert SectionOrder[..k + 1][..k] == SectionOrder[..k];
      if SectionFound(content, SectionOrder[k]) {
        found := found + [SectionOrder[k]];
      }
    }
    assert SectionOrder[..|SectionOrder|] == SectionOrder;
  }

  /** The status lines: one per detected section, or the "no sections" line. */
  method StatusLinesOf(found: seq<Section>) returns (out: seq<string>)
    ensures out == StatusLines(found)
  {
    if found == [] {
      return [NoSectionsLine];
    }
    out := [];
    for k := 0 to |found|
      invariant |out| == k && forall j :: 0 <= j < k ==> out[j] == StatusLine(found[j])
    {
      out := out + [StatusLine(found[k])];
    }
  }

  /** `parse_error_from_issue(issue_content, state)`; the state is not used. */
  method ParseErrorFromIssue(content: string) returns (report: string)
    ensures report == JoinLines(IssueAnalysisLines(content))
  {
    var stack := ExtractStackTrace(content);
    var found := DetectSections(content);
    var status := StatusLinesOf(found);
    var output := [AnalysisHeading, stack, StructureHeading] + status + Recommendation;
    report := JoinLines(output);
  }

  /** The detected sections are exactly the sections whose pattern matches, in order. */
  lemma {:induction false} FoundSectionsSpec(s: string, secs: seq<Section>)
    ensures forall sec :: sec in FoundSections(s, secs) <==> sec in secs && SectionFound(s, sec)
    decreases |secs|
  {
    if secs != [] {
      var init := secs[..|secs| - 1];
      FoundSectionsSpec(s, init);
      assert secs == init + [secs[|secs| - 1]];
      assert forall sec :: sec in secs <==> sec in init || sec == secs[|secs| - 1];
    }
  }

  lemma EverySectionIsChecked(sec: Section)
    ensures sec in SectionOrder
  {
    match sec
    case Environment => assert SectionOrder[0] == sec;
    case Steps => assert SectionOrder[1] == sec;
    case Expected => assert SectionOrder[2] == sec;
    case Actual => assert SectionOrder[3] == sec;
    case Version => assert SectionOrder[4] == sec;
  }

  /** Different sections have different status lines (their titles differ in length),
      and none of them is the "no sections" line. */
  lemma StatusLineDistinct(a: Section, b: Section)
    ensures StatusLine(a) == StatusLine(b) ==> a == b
    ensures StatusLine(a) != NoSectionsLine
  {
    assert StatusLine(a)[2] != NoSectionsLine[2];
  }

  /** Which of the status lines appear among `StatusLines(found)`. */
  lemma StatusLinesMembers(found: seq<Section>)
    ensures NoSectionsLine in StatusLines(found) <==> found == []
    ensures forall sec :: StatusLine(sec) in StatusLines(found) <==> sec in found
  {
    var lines := StatusLines(found);
    if found != [] {
      forall x | x in lines ensures x != NoSectionsLine {
        var k :| 0 <= k < |lines| && lines[k] == x;
        StatusLineDistinct(found[k], found[k]);
      }
    }
    forall sec ensures StatusLine(sec) in lines <==> sec in found {
      StatusLineDistinct(sec, sec);
      if sec in found {
        var k :| 0 <= k < |found| && found[k] == sec;
        assert lines[k] == StatusLine(sec);
      }
      if StatusLine(sec) in lines {
        var k :| 0 <= k < |lines| && lines[k] == StatusLine(sec);
        StatusLineDistinct(found[k], sec);
      }
    }
  }

  /** A stack trace report is the "no trace" text or starts with the report heading. */
  lemma StackTraceReportShape(content: string)
    ensures var report := StackTraceReport(content);
      report == NoTraceText || (|report| >= |ReportHeading| && report[..|ReportHeading|] == ReportHeading)
  {
    if StackTraceReport(content) != NoTraceText {
      ReportStartsWithHeading(Scan(content));
    }
  }

  /** No line outside the structure part starts with `-`. */
  lemma OutsideLinesHaveNoDash(report: string, x: string)
    requires report == NoTraceText || (|report| >= |ReportHeading| && report[..|ReportHeading|] == ReportHeading)
    requires |x| > 0 && x[0] == '-'
    ensures x !in [AnalysisHeading, report, StructureHeading] && x !in Recommendation
  {
    if report != NoTraceText {
      assert report[0] == ReportHeading[0];
    }
    assert Recommendation[0][0] == '\n' && Recommendation[1][0] == '1';
    assert Recommendation[2][0] == '2' && Recommendation[3][0] == '3';
  }

  /** The structure part lists the status line of each detected section, or the single
      "no sections" line when none is detected. */
  lemma StructureListsSections(content: string)
    ensures NoSectionsLine in IssueAnalysisLines(content) <==> forall sec :: !SectionFound(content, sec)
    ensures forall sec :: StatusLine(sec) in IssueAnalysisLines(content) <==> SectionFound(content, sec)
  {
    var found := FoundSections(content, SectionOrder);
    var head := [AnalysisHeading, StackTraceReport(content), StructureHeading];
    FoundSectionsSpec(content, SectionOrder);
    StatusLinesMembers(found);
    StackTraceReportShape(content);
    assert NoSectionsLine[0] == '-';
    OutsideLinesHaveNoDash(StackTraceReport(content), NoSectionsLine);
    forall sec ensures StatusLine(sec) !in head && StatusLine(sec) !in Recommendation {
      OutsideLinesHaveNoDash(StackTraceReport(content), StatusLine(sec));
    }
    forall sec ensures sec in SectionOrder {
      EverySectionIsChecked(sec);
    }
    if found != [] {
      assert found[0] in found;
    }
  }
}
