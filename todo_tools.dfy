/** The TODO tools `write_todos`, `read_todos` and `mark_todo_done`
    (github_agent/src/tools/todo_tools.py) over the state's `todos` list. A TODO's status
    lives in its text: it is done when its stripped text starts with "[x]", "✓" or "✅". */
module TodoTools {
  import opened Text
  import opened State

  const NoTodosYet := "📋 No TODOs set yet. Use write_todos() to create a plan."
  const NoTodosExist := "❌ No TODOs exist. Use write_todos() first."

  /** The cleaning rule `todo.strip().lstrip('[x]').lstrip('✓').lstrip('✅').strip()`.
      Each `lstrip` drops a leading run of characters of a SET, not a literal prefix. */
  function CleanTodo(todo: string): string {
    Strip(LStripChars(LStripChars(LStripChars(Strip(todo), {'[', 'x', ']'}), {'✓'}), {'✅'}))
  }

  /** The cleaned text has no leading or trailing whitespace. */
  lemma CleanTodoAnchored(todo: string)
    ensures Anchored(CleanTodo(todo))
  {
    StripIsAnchored(LStripChars(LStripChars(LStripChars(Strip(todo), {'[', 'x', ']'}), {'✓'}), {'✅'}));
  }

  /** `todo.strip().startswith(('[x]', '✓', '✅'))`. */
  predicate IsDone(todo: string) {
    var t := Strip(todo);
    "[x]" <= t || "✓" <= t || "✅" <= t
  }

  /** What `mark_todo_done` stores for a TODO. */
  function DoneText(todo: string): string {
    "✅ " + CleanTodo(todo)
  }

  /** The marker `read_todos` shows. */
  function Marker(done: bool): string {
    if done then "✅" else "[ ]"
  }

  /** The number in front of the TODO at 1-based position `idx`. */
  function Numbered(idx: nat): string {
    "  " + NatToString(idx) + ". "
  }

  // ---------------------------------------------------------------------------
  // write_todos

  /** The lines `write_todos` joins: a header with the item count, then one unchecked,
      numbered line per item, in order. */
  function WriteLines(todos: seq<string>): (lines: seq<string>)
    ensures |lines| == |todos| + 1
    ensures lines[0] == "📋 Created " + NatToString(|todos|) + " TODO items:\n"
    ensures forall i :: 0 <= i < |todos| ==> lines[i + 1] == Numbered(i + 1) + "[ ] " + todos[i]
  {
    ["📋 Created " + NatToString(|todos|) + " TODO items:\n"]
    + seq(|todos|, i requires 0 <= i < |todos| => Numbered(i + 1) + "[ ] " + todos[i])
  }

  /** `write_todos`: replaces the whole list by `todosList`, in order. */
  method WriteTodos(state: AgentState, todosList: seq<string>) returns (out: string)
    modifies state`todos
    ensures state.todos == todosList
    ensures out == JoinLines(WriteLines(todosList))
  {
    state.todos := todosList;
    var output := ["📋 Created " + NatToString(|todosList|) + " TODO items:\n"];
    var i := 0;
    while i < |todosList|
      invariant 0 <= i <= |todosList|
      invariant output == WriteLines(todosList)[..i + 1]
    {
      output := output + [Numbered(i + 1) + "[ ] " + todosList[i]];
      i := i + 1;
    }
    assert output == WriteLines(todosList);
    out := JoinLines(output);
  }

  /** Every item written appears, after its number and an unchecked box, in the answer. */
  lemma WriteListsEveryItem(todos: seq<string>, i: int)
    requires 0 <= i < |todos|
    ensures Contains(JoinLines(WriteLines(todos)), Numbered(i + 1) + "[ ] " + todos[i])
  {
    JoinContainsPart(WriteLines(todos), "\n", i + 1);
  }

  // ---------------------------------------------------------------------------
  // read_todos

  /** The line `read_todos` shows for the TODO at 1-based position `idx`. */
  function ReadLine(idx: nat, todo: string): string {
    Numbered(idx) + Marker(IsDone(todo)) + " " + CleanTodo(todo)
  }

  /** The lines `read_todos` joins for a non-empty list. */
  function ReadLines(todos: seq<string>): (lines: seq<string>)
    ensures |lines| == |todos| + 1
    ensures lines[0] == "📋 Current TODO List (" + NatToString(|todos|) + " items):\n"
    ensures forall i :: 0 <= i < |todos| ==> lines[i + 1] == ReadLine(i + 1, todos[i])
  {
    ["📋 Current TODO List (" + NatToString(|todos|) + " items):\n"]
    + seq(|todos|, i requires 0 <= i < |todos| => ReadLine(i + 1, todos[i]))
  }

  /** The answer of `read_todos`. */
  function ReadText(todos: seq<string>): (out: string)
    ensures todos == [] ==> out == NoTodosYet
    ensures todos != [] ==> out == JoinLines(ReadLines(todos))
  {
    if todos == [] then NoTodosYet else JoinLines(ReadLines(todos))
  }

  lemma ReadLineParts(idx: nat, todo: string)
    ensures ReadLine(idx, todo) == Numbered(idx) + (if IsDone(todo) then "✅" else "[ ]") + " " + CleanTodo(todo)
  {
  }

  /** `read_todos`: renders the list without changing it. */
  method ReadTodos(state: AgentState) returns (out: string)
    ensures out == ReadText(state.todos)
  {
    var todos := state.todos;
    if |todos| == 0 {
      return NoTodosYet;
    }
    var header := "📋 Current TODO List (" + NatToString(|todos|) + " items):\n";
    var lines: seq<string> := [];
    var i := 0;
    while i < |todos|
      invariant 0 <= i <= |todos|
      invariant |lines| == i && forall k :: 0 <= k < i ==> lines[k] == ReadLine(k + 1, todos[k])
    {
      lines := lines + [ReadLine(i + 1, todos[i])];
      i := i + 1;
    }
    var output := [header] + lines;
    ReadLinesOf(todos, lines);
    out := JoinLines(output);
  }

  /** The header followed by each TODO's line, in order, is the list `read_todos` joins. */
  lemma ReadLinesOf(todos: seq<string>, lines: seq<string>)
    requires |lines| == |todos| && forall k :: 0 <= k < |todos| ==> lines[k] == ReadLine(k + 1, todos[k])
    ensures ["📋 Current TODO List (" + NatToString(|todos|) + " items):\n"] + lines == ReadLines(todos)
  {
  }

  /** The marker a line shows, read right after its number, is "✅" exactly for a done
      TODO and "[" (of "[ ]") otherwise. */
  lemma ReadLineShowsStatus(idx: nat, todo: string)
    ensures ReadLine(idx, todo)[|Numbered(idx)|] == (if IsDone(todo) then '✅' else '[')
  {
  }

  // ---------------------------------------------------------------------------
  // mark_todo_done

  /** The list after `mark_todo_done(index)`: only the item at `index - 1` changes, and only
      when the index is valid. */
  function Mark(todos: seq<string>, index: int): (r: seq<string>)
    ensures |r| == |todos|
    ensures 1 <= index <= |todos| ==> r[index - 1] == DoneText(todos[index - 1])
    ensures forall k :: 0 <= k < |todos| && k != index - 1 ==> r[k] == todos[k]
    ensures !(1 <= index <= |todos|) ==> r == todos
  {
    if 1 <= index <= |todos| then todos[index - 1 := DoneText(todos[index - 1])] else todos
  }

  /** The answer of `mark_todo_done(index)`. */
  function MarkMessage(todos: seq<string>, index: int): string {
    if todos == [] then NoTodosExist
    else if index < 1 || index > |todos| then
      "❌ Invalid index " + IntToString(index) + ". Valid range: 1-" + NatToString(|todos|)
    else "✅ Marked TODO #" + IntToString(index) + " as done: " + CleanTodo(todos[index - 1])
  }

  /** `mark_todo_done`: overwrites one element of the list in place. */
  method MarkTodoDone(state: AgentState, index: int) returns (out: string)
    modifies state`todos
    ensures state.todos == Mark(old(state.todos), index)
    ensures out == MarkMessage(old(state.todos), index)
  {
    if |state.todos| == 0 {
      return NoTodosExist;
    }
    if index < 1 || index > |state.todos| {
      return "❌ Invalid index " + IntToString(index) + ". Valid range: 1-" + NatToString(|state.todos|);
    }
    var idx := index - 1;
    var todo := CleanTodo(state.todos[idx]);
    state.todos := state.todos[idx := "✅ " + todo];
    out := "✅ Marked TODO #" + IntToString(index) + " as done: " + todo;
  }

  lemma StripKeeps(s: string)
    requires s != [] && !IsSpace(s[0]) && !IsSpace(s[|s| - 1])
    ensures Strip(s) == s
  {
  }

  lemma LStripCharsKeeps(s: string, chars: set<char>)
    requires s != [] && s[0] !in chars
    ensures LStripChars(s, chars) == s
  {
  }

  /** Cleaning a stored "done" text gives back exactly the cleaned text it was made from:
      the blank after "✅" stops the `lstrip('✅')` run. */
  lemma CleanDoneText(c: string)
    requires Anchored(c)
    ensures CleanTodo("✅ " + c) == c
  {
    var s := "✅ " + c;
    if c == [] {
      assert RStripSpace(s) == "✅" by {
        assert RStripSpace("✅") == "✅";
      }
      assert Strip(s) == "✅";
      assert LStripChars("✅", {'[', 'x', ']'}) == "✅";
      assert LStripChars("✅", {'✓'}) == "✅";
      assert LStripChars("✅", {'✅'}) == "";
    } else {
      StripKeeps(s);
      LStripCharsKeeps(s, {'[', 'x', ']'});
      LStripCharsKeeps(s, {'✓'});
      assert LStripChars(s, {'✅'}) == " " + c by {
        assert s[1..] == " " + c;
      }
      assert LStripSpace(" " + c) == c by {
        assert (" " + c)[1..] == c;
      }
      StripAnchored(c);
    }
  }

  /** A stored "done" text is shown as done. */
  lemma DoneTextIsDone(todo: string)
    ensures IsDone(DoneText(todo))
  {
    var c := CleanTodo(todo);
    var s := "✅ " + c;
    CleanTodoAnchored(todo);
    if c == [] {
      assert RStripSpace(s) == "✅" by {
        assert RStripSpace("✅") == "✅";
      }
    } else {
      StripKeeps(s);
    }
  }

  /** Marking the same index twice leaves the same list as marking it once. */
  lemma MarkIdempotent(todos: seq<string>, index: int)
    ensures Mark(Mark(todos, index), index) == Mark(todos, index)
  {
    if 1 <= index <= |todos| {
      CleanTodoAnchored(todos[index - 1]);
      CleanDoneText(CleanTodo(todos[index - 1]));
    }
  }

  /** A stored "done" text is shown with the done marker and the text it was made from. */
  lemma ReadDoneText(idx: nat, todo: string)
    ensures ReadLine(idx, DoneText(todo)) == Numbered(idx) + "✅ " + CleanTodo(todo)
  {
    DoneTextIsDone(todo);
    CleanTodoAnchored(todo);
    CleanDoneText(CleanTodo(todo));
  }

  /** After marking, `read_todos` shows the item as done with its cleaned text. */
  lemma ReadAfterMark(todos: seq<string>, index: int)
    requires 1 <= index <= |todos|
    ensures ReadLines(Mark(todos, index))[index] == Numbered(index) + "✅ " + CleanTodo(todos[index - 1])
  {
    ReadDoneText(index, todos[index - 1]);
  }

  /** The characters the three `lstrip` calls can remove. */
  predicate Strippable(c: char) {
    c == '[' || c == 'x' || c == ']' || c == '✓' || c == '✅'
  }

  /** `lstrip('[x]')` strips characters, not the prefix "[x]": a checked box in front of a
      task is removed... */
  lemma CleaningCheckedBox(task: string)
    requires task != [] && Anchored(task) && !Strippable(task[0])
    ensures IsDone("[x] " + task)
    ensures CleanTodo("[x] " + task) == task
  {
    var t := "[x] " + task;
    StripKeeps(t);
    var b := " " + task;
    var box := {'[', 'x', ']'};
    LStripCharsKeeps(b, box);
    assert LStripChars("] " + task, box) == LStripChars(b, box) by {
      assert ("] " + task)[1..] == b;
    }
    assert LStripChars("x] " + task, box) == LStripChars("] " + task, box) by {
      assert ("x] " + task)[1..] == "] " + task;
    }
    assert LStripChars(t, box) == LStripChars("x] " + task, box) by {
      assert t[1..] == "x] " + task;
    }
    LStripCharsKeeps(b, {'✓'});
    LStripCharsKeeps(b, {'✅'});
    assert LStripSpace(b) == task by {
      assert b[1..] == task;
    }
    assert Strip(b) == task;
  }

  /** ... but so is a leading 'x' of an ordinary word ... */
  lemma CleaningDropsLeadingX(rest: string)
    requires rest != [] && Anchored(rest) && !Strippable(rest[0])
    ensures !IsDone("x" + rest)
    ensures CleanTodo("x" + rest) == rest
  {
    var t := "x" + rest;
    StripKeeps(t);
    assert LStripChars(t, {'[', 'x', ']'}) == rest by {
      assert t[1..] == rest;
    }
    LStripCharsKeeps(rest, {'✓'});
    LStripCharsKeeps(rest, {'✅'});
    StripAnchored(rest);
  }

  /** ... and an unchecked "[ ]" box loses only its '[', so `read_todos` shows "[ ] ] task". */
  lemma CleaningUncheckedBox(task: string)
    requires task != [] && Anchored(task)
    ensures !IsDone("[ ] " + task)
    ensures CleanTodo("[ ] " + task) == "] " + task
    ensures ReadLine(1, "[ ] " + task) == "  1. [ ] ] " + task
  {
    var t := "[ ] " + task;
    StripKeeps(t);
    assert t[0] == '[' && t[1] == ' ';
    assert !("[x]" <= t) && !("✓" <= t) && !("✅" <= t);
    var b := " ] " + task;
    assert LStripChars(t, {'[', 'x', ']'}) == b by {
      assert t[1..] == b;
    }
    LStripCharsKeeps(b, {'✓'});
    LStripCharsKeeps(b, {'✅'});
    var c := "] " + task;
    assert LStripSpace(b) == c by {
      assert b[1..] == c;
    }
    StripKeeps(c);
    assert Strip(b) == c;
    assert NatToString(1) == "1";
  }
}
