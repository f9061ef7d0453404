/** The virtual file system tools `ls`, `read_file` and `write_file`
    (github_agent/src/tools/file_tools.py) over the state's `files` map. */
module FileTools {
  import opened Text
  import opened Ordering
  import opened State

  const EmptyListing := "📂 File system is empty. No files created yet."

  /** The line `ls` prints for one file (the size in KB is not modelled). */
  function ListingEntry(filename: string): string {
    "  📄 " + filename
  }

  /** The entries `ls` prints: one per file, in sorted filename order. */
  function Entries(files: map<string, string>): (entries: seq<string>)
    ensures |entries| == |files|
    ensures forall i :: 0 <= i < |files| ==> entries[i] == ListingEntry(SortedKeys(files.Keys)[i])
  {
    var names := SortedKeys(files.Keys);
    seq(|names|, i requires 0 <= i < |names| => ListingEntry(names[i]))
  }

  /** The lines `ls` joins: a header with the file count, the entries, and a closing hint. */
  function LsLines(files: map<string, string>): (lines: seq<string>)
    requires files != map[]
    ensures |lines| == |files| + 2
    ensures lines[0] == "📂 Virtual File System (" + NatToString(|files|) + " files):\n"
    ensures lines[1..|files| + 1] == Entries(files)
    ensures lines[|files| + 1] == "\n💡 Use read_file('filename') to view contents"
  {
    var lines := ["📂 Virtual File System (" + NatToString(|files|) + " files):\n"]
      + Entries(files) + ["\n💡 Use read_file('filename') to view contents"];
    assert lines[1..|files| + 1] == Entries(files);
    lines
  }

  /** `ls`. */
  function Ls(files: map<string, string>): (out: string)
    ensures files == map[] ==> out == EmptyListing
    ensures files != map[] ==> out == JoinLines(LsLines(files))
  {
    if files == map[] then EmptyListing else JoinLines(LsLines(files))
  }

  lemma ListingEntryInjective(a: string, b: string)
    ensures ListingEntry(a) == ListingEntry(b) ==> a == b
  {
    if ListingEntry(a) == ListingEntry(b) {
      assert ListingEntry(a)[|"  📄 "|..] == a;
      assert ListingEntry(b)[|"  📄 "|..] == b;
    }
  }

  /** Every file has an entry in the listing, and nothing but the files is listed. */
  lemma LsListsEveryFile(files: map<string, string>)
    ensures forall k :: k in files <==> ListingEntry(k) in Entries(files)
  {
    var names := SortedKeys(files.Keys);
    var entries := Entries(files);
    forall k ensures k in files <==> ListingEntry(k) in entries {
      if k in files {
        assert k in names;
        var i :| 0 <= i < |names| && names[i] == k;
        assert entries[i] == ListingEntry(k);
      }
      if ListingEntry(k) in entries {
        var i :| 0 <= i < |entries| && entries[i] == ListingEntry(k);
        ListingEntryInjective(names[i], k);
        assert names[i] in names;
      }
    }
  }

  /** No file is listed twice by `ls`. */
  lemma LsListsNoFileTwice(files: map<string, string>)
    ensures forall i, j :: 0 <= i < j < |files| ==> Entries(files)[i] != Entries(files)[j]
  {
    var names := SortedKeys(files.Keys);
    var entries := Entries(files);
    SortedKeysSorted(files.Keys);
    forall i, j | 0 <= i < j < |files| ensures entries[i] != entries[j] {
      assert names[i] != names[j];
      ListingEntryInjective(names[i], names[j]);
    }
  }

  /** The entries follow sorted filename order. */
  lemma LsListsInSortedOrder(files: map<string, string>, i: int, j: int)
    requires 0 <= i < j < |files|
    ensures Entries(files)[i] == ListingEntry(SortedKeys(files.Keys)[i])
    ensures Entries(files)[j] == ListingEntry(SortedKeys(files.Keys)[j])
    ensures StrLe(SortedKeys(files.Keys)[i], SortedKeys(files.Keys)[j])
  {
    SortedKeysSorted(files.Keys);
  }

  /** The header of a file shown by `read_file`. */
  function ReadHeader(filename: string): string {
    "📄 **" + filename + "**\n\n"
  }

  /** The line naming one available file in the "not found" answer. */
  function Bullet(filename: string): string {
    "  - " + filename
  }

  lemma BulletInjective(a: string, b: string)
    ensures Bullet(a) == Bullet(b) ==> a == b
  {
    if Bullet(a) == Bullet(b) {
      assert Bullet(a)[4..] == a;
      assert Bullet(b)[4..] == b;
    }
  }

  /** The first line of the "not found" answer, with its line break. */
  function NotFoundHeader(filename: string): string {
    "❌ File '" + filename + "' not found.\n\nAvailable files:\n"
  }

  /** The bullets of the "not found" answer of `read_file`: one per available file and
      nothing else. */
  function NotFoundLines(files: map<string, string>): (lines: seq<string>)
    ensures |lines| == |files|
    ensures forall k :: k in files <==> Bullet(k) in lines
  {
    var names := SortedKeys(files.Keys);
    var entries := seq(|names|, i requires 0 <= i < |names| => Bullet(names[i]));
    forall k ensures k in files <==> Bullet(k) in entries {
      if k in files {
        var i :| 0 <= i < |names| && names[i] == k;
        assert entries[i] == Bullet(k);
      }
      if Bullet(k) in entries {
        var i :| 0 <= i < |entries| && entries[i] == Bullet(k);
        BulletInjective(names[i], k);
        assert names[i] in names;
      }
    }
    entries
  }

  /** `read_file`: the content under a header, or the "not found" header followed by the
      joined bullets. */
  function ReadFile(files: map<string, string>, filename: string): (out: string)
    ensures filename in files ==> out == ReadHeader(filename) + files[filename]
    ensures filename !in files ==> out == NotFoundHeader(filename) + JoinLines(NotFoundLines(files))
    ensures filename !in files && files == map[] ==> out == NotFoundHeader(filename)
  {
    if filename in files then ReadHeader(filename) + files[filename]
    else NotFoundHeader(filename) + JoinLines(NotFoundLines(files))
  }

  /** The "not found" answer names every existing file. */
  lemma NotFoundNamesEveryFile(files: map<string, string>, filename: string, k: string)
    requires filename !in files && k in files
    ensures Contains(ReadFile(files, filename), Bullet(k))
  {
    var lines := NotFoundLines(files);
    var i :| 0 <= i < |lines| && lines[i] == Bullet(k);
    JoinContainsPart(lines, "\n", i);
    ContainsConcat(NotFoundHeader(filename), JoinLines(lines), Bullet(k));
  }

  /** The answer `write_file` gives: "Created" exactly when the name was new (the size in
      KB is not modelled). */
  function WriteMessage(isNew: bool, filename: string): string {
    if isNew then "✅ Created new file: " + filename else "✅ Updated file: " + filename
  }

  /** `write_file`: stores `content` under `filename`, overwriting an existing entry. */
  method WriteFile(state: AgentState, filename: string, content: string) returns (out: string)
    modifies state`files
    ensures state.files == old(state.files)[filename := content]
    ensures out == WriteMessage(filename !in old(state.files), filename)
  {
    var isNew := filename !in state.files;
    state.files := state.files[filename := content];
    out := WriteMessage(isNew, filename);
  }

  /** Reading a file just written returns exactly the written content after the header. */
  lemma ReadAfterWrite(files: map<string, string>, filename: string, content: string)
    ensures ReadFile(files[filename := content], filename) == ReadHeader(filename) + content
    ensures ReadFile(files[filename := content], filename)[|ReadHeader(filename)|..] == content
  {
  }

  /** A second write to the same name wins, and a write leaves every other file alone. */
  lemma WriteOverwritesOnlyItsKey(files: map<string, string>, filename: string, x: string, y: string)
    ensures files[filename := x][filename := y] == files[filename := y]
    ensures forall k :: k != filename ==>
              (k in files[filename := x] <==> k in files) &&
              (k in files ==> files[filename := x][k] == files[k])
  {
  }
}
