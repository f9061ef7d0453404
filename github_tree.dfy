/** `list_repository_structure` and its inner `build_tree`
    (github_agent/src/tools/github_tools.py:148-228) over an abstract content tree: the
    client's `get_contents` is the oracle `contents`, from a path to what is stored there. */
module GithubTree {
  import opened Wrappers
  import opened Text
  import opened Ordering
  import GithubTools

  /** An entry of the repository: its name, its path, its GitHub content `type` ("dir",
      "file", or another type such as "symlink" or "submodule") and its size in bytes. */
  datatype Item = Item(name: string, path: string, kind: string, size: nat)

  /** What `get_contents(path)` gives: the entries of a directory, a single entry, or a
      `GithubException` (access denied, too large). */
  datatype Listing = Entries(items: seq<Item>) | Single(item: Item) | Denied

  function NameOf(item: Item): string {
    item.name
  }

  /** `[c for c in contents if c.type == kind]`. */
  function OfKind(items: seq<Item>, kind: string): seq<Item>
    decreases |items|
  {
    if items == [] then []
    else (if items[0].kind == kind then [items[0]] else []) + OfKind(items[1..], kind)
  }

  /** The entries of the kind, and only those. */
  lemma {:induction false} OfKindSpec(items: seq<Item>, kind: string)
    ensures forall x :: x in OfKind(items, kind) <==> x in items && x.kind == kind
    decreases |items|
  {
    if items != [] {
      OfKindSpec(items[1..], kind);
      assert items == [items[0]] + items[1..];
    }
  }

  /** Lines 181-186: the directories, then the files, each group sorted by name; entries of any
      other type are dropped from a listing, while a single entry stands alone. */
  function Arrange(listing: Listing): (a: seq<Item>)
    requires !listing.Denied?
    ensures listing.Entries? ==> forall x :: x in a <==> x in listing.items && (x.kind == "dir" || x.kind == "file")
    ensures listing.Single? ==> a == [listing.item]
  {
    match listing
    case Single(item) => [item]
    case Entries(items) =>
      OfKindSpec(items, "dir");
      OfKindSpec(items, "file");
      SortByKeeps(OfKind(items, "dir"));
      SortByKeeps(OfKind(items, "file"));
      SortBy(OfKind(items, "dir"), NameOf) + SortBy(OfKind(items, "file"), NameOf)
  }

  const LastConnector := "└── "
  const MidConnector := "├── "

  /** `"└── " if is_last else "├── "`. */
  function Connector(isLast: bool): string {
    if isLast then LastConnector else MidConnector
  }

  /** The prefix extension for the children of an entry. */
  function Indent(isLast: bool): string {
    if isLast then "    " else "│   "
  }

  /** The line of one entry: a directory with a trailing '/', a file with its size when it is
      not zero. */
  function EntryLine(item: Item, isLast: bool, prefix: string): string {
    if item.kind == "dir" then prefix + Connector(isLast) + "📁 " + item.name + "/"
    else prefix + Connector(isLast) + "📄 " + item.name + " "
         + (if item.size != 0 then NatToString(item.size) + " bytes" else "")
  }

  /** The line that stands for a directory the client refuses to list. */
  function DeniedLine(prefix: string): string {
    prefix + LastConnector + "⚠️  (access denied or too large)"
  }

  /** `build_tree(path, depth, prefix)`: nothing below the depth limit, one warning line when
      the listing fails, else the lines of every arranged entry, at least one each. */
  function Tree(contents: string -> Listing, maxDepth: int, path: string, depth: int, prefix: string): (lines: seq<string>)
    ensures depth > maxDepth ==> lines == []
    ensures depth <= maxDepth && contents(path).Denied? ==> lines == [DeniedLine(prefix)]
    ensures depth <= maxDepth && !contents(path).Denied? ==> |lines| >= |Arrange(contents(path))|
    decreases maxDepth - depth, 2, 0
  {
    if depth > maxDepth then []
    else if contents(path).Denied? then [DeniedLine(prefix)]
    else
      var items := Arrange(contents(path));
      Blocks(contents, maxDepth, items, |items|, depth, prefix)
  }

  /** The lines of the first `k` of the arranged `items`: each entry's line, followed by the
      subtree of a directory while `depth < maxDepth`. */
  function Blocks(contents: string -> Listing, maxDepth: int, items: seq<Item>, k: nat, depth: int,
                  prefix: string): (lines: seq<string>)
    requires k <= |items| && depth <= maxDepth
    ensures |lines| >= k
    decreases maxDepth - depth, 1, k
  {
    if k == 0 then []
    else
      var item := items[k - 1];
      var isLast := k == |items|;
      Blocks(contents, maxDepth, items, k - 1, depth, prefix) + [EntryLine(item, isLast, prefix)]
        + (if item.kind == "dir" && depth < maxDepth
           then Tree(contents, maxDepth, item.path, depth + 1, prefix + Indent(isLast))
           else [])
  }

  /** `build_tree`: the recursive function with its loop over the arranged entries. */
  method BuildTree(contents: string -> Listing, maxDepth: int, path: string, depth: int, prefix: string)
    returns (output: seq<string>)
    ensures output == Tree(contents, maxDepth, path, depth, prefix)
    decreases maxDepth - depth
  {
    if depth > maxDepth {
      return [];
    }
    var listing := contents(path);
    if listing.Denied? {
      return [DeniedLine(prefix)];
    }
    var items := Arrange(listing);
    output := [];
    var k := 0;
    while k < |items|
      invariant k <= |items|
      invariant output == Blocks(contents, maxDepth, items, k, depth, prefix)
    {
      var item := items[k];
      var isLast := k == |items| - 1;
      var sub: seq<string> := [];
      if item.kind == "dir" && depth < maxDepth {
        sub := BuildTree(contents, maxDepth, item.path, depth + 1, prefix + Indent(isLast));
      }
      BlocksStep(contents, maxDepth, items, k, depth, prefix);
      output := output + [EntryLine(item, isLast, prefix)] + sub;
      k := k + 1;
    }
  }

  /** The lines of one more entry: its line, then its subtree if it is expanded. */
  lemma BlocksStep(contents: string -> Listing, maxDepth: int, items: seq<Item>, k: nat, depth: int, prefix: string)
    requires k < |items| && depth <= maxDepth
    ensures Blocks(contents, maxDepth, items, k + 1, depth, prefix)
         == Blocks(contents, maxDepth, items, k, depth, prefix) + [EntryLine(items[k], k == |items| - 1, prefix)]
            + (if items[k].kind == "dir" && depth < maxDepth
               then Tree(contents, maxDepth, items[k].path, depth + 1, prefix + Indent(k == |items| - 1))
               else [])
  {
  }

  /** The header of the answer. */
  function StructureHeader(repoName: string, path: string, maxDepth: int): seq<string> {
    ["Repository Structure: " + repoName,
     if path != "" then "Path: /" + path else "Path: / (root)",
     "Max Depth: " + IntToString(maxDepth),
     Repeat('=', 60),
     ""]
  }

  const EmptyTree := "(empty or inaccessible)"

  /** `list_repository_structure` with `lookup` the repository lookup's failure, if any. */
  function StructureText(repoName: string, path: string, maxDepth: int, lookup: Option<GithubTools.Fault>,
                         contents: string -> Listing): string {
    if lookup.Some? then GithubTools.FaultText(lookup.value, "Error listing structure: ")
    else
      var tree := Tree(contents, maxDepth, path, 0, "");
      JoinLines(StructureHeader(repoName, path, maxDepth) + (if tree == [] then [EmptyTree] else tree))
  }

  /** `list_repository_structure`. */
  method ListRepositoryStructure(repoName: string, path: string, maxDepth: int, lookup: Option<GithubTools.Fault>,
                                 contents: string -> Listing) returns (out: string)
    ensures out == StructureText(repoName, path, maxDepth, lookup, contents)
  {
    if lookup.Some? {
      return GithubTools.FaultText(lookup.value, "Error listing structure: ");
    }
    var tree := BuildTree(contents, maxDepth, path, 0, "");
    var header := StructureHeader(repoName, path, maxDepth);
    if tree == [] {
      out := JoinLines(header + [EmptyTree]);
    } else {
      out := JoinLines(header + tree);
    }
  }

  // ---------------------------------------------------------------------------
  // Properties

  /** Sorted directories followed by sorted files: directories first, names ascending
      within each group. */
  lemma GroupsInOrder(dirs: seq<Item>, files: seq<Item>)
    requires forall i :: 0 <= i < |dirs| ==> dirs[i].kind == "dir"
    requires forall i :: 0 <= i < |files| ==> files[i].kind == "file"
    requires SortedBy(dirs, NameOf) && SortedBy(files, NameOf)
    ensures var a := dirs + files;
            (forall i :: 0 <= i < |a| ==> a[i].kind == "dir" || a[i].kind == "file")
            && (forall i, j :: 0 <= i < j < |a| && a[j].kind == "dir" ==> a[i].kind == "dir")
            && (forall i, j :: 0 <= i < j < |a| && a[i].kind == a[j].kind ==> StrLe(a[i].name, a[j].name))
  {
    var a := dirs + files;
    assert forall i :: |dirs| <= i < |a| ==> a[i] == files[i - |dirs|];
    forall i, j | 0 <= i < j < |a| && a[i].kind == a[j].kind ensures StrLe(a[i].name, a[j].name) {
      if j < |dirs| {
        assert NameOf(dirs[i]) == a[i].name && NameOf(dirs[j]) == a[j].name;
      } else if i >= |dirs| {
        assert NameOf(files[i - |dirs|]) == a[i].name;
      }
    }
  }

  /** Sorting keeps exactly the elements it is given. */
  lemma SortByKeeps(s: seq<Item>)
    ensures forall x :: x in SortBy(s, NameOf) <==> x in s
  {
    SortBySorted(s, NameOf);
    forall x ensures x in SortBy(s, NameOf) <==> x in s {
      assert x in SortBy(s, NameOf) <==> x in multiset(SortBy(s, NameOf));
      assert x in s <==> x in multiset(s);
    }
  }

  /** The order of a listing: only directories and files, every directory before every file,
      names ascending within each group, and exactly the listing's directories and files. */
  lemma ArrangeDirsFirst(items: seq<Item>)
    ensures var a := Arrange(Entries(items));
            (forall i :: 0 <= i < |a| ==> a[i].kind == "dir" || a[i].kind == "file")
            && (forall i, j :: 0 <= i < j < |a| && a[j].kind == "dir" ==> a[i].kind == "dir")
            && (forall i, j :: 0 <= i < j < |a| && a[i].kind == a[j].kind ==> StrLe(a[i].name, a[j].name))
            && (forall x :: x in a <==> x in items && (x.kind == "dir" || x.kind == "file"))
  {
    var dirs := SortBy(OfKind(items, "dir"), NameOf);
    var files := SortBy(OfKind(items, "file"), NameOf);
    OfKindSpec(items, "dir");
    OfKindSpec(items, "file");
    SortBySorted(OfKind(items, "dir"), NameOf);
    SortBySorted(OfKind(items, "file"), NameOf);
    SortByKeeps(OfKind(items, "dir"));
    SortByKeeps(OfKind(items, "file"));
    assert forall i :: 0 <= i < |dirs| ==> dirs[i].kind == "dir" by {
      forall i | 0 <= i < |dirs| ensures dirs[i].kind == "dir" { assert dirs[i] in dirs; }
    }
    assert forall i :: 0 <= i < |files| ==> files[i].kind == "file" by {
      forall i | 0 <= i < |files| ensures files[i].kind == "file" { assert files[i] in files; }
    }
    GroupsInOrder(dirs, files);
  }

  /** The tree is empty exactly when the depth limit is negative or the path is a directory
      without any directory or file in it; then the answer says "(empty or inaccessible)". */
  lemma EmptyTreeIff(contents: string -> Listing, maxDepth: int, path: string)
    ensures Tree(contents, maxDepth, path, 0, "") == [] <==>
              maxDepth < 0 || (contents(path).Entries? &&
                               forall x :: x in contents(path).items ==> x.kind != "dir" && x.kind != "file")
  {
    if maxDepth >= 0 && !contents(path).Denied? {
      var items := Arrange(contents(path));
      if contents(path).Entries? {
        if items != [] {
          assert items[0] in items;
        }
      }
    }
  }

  /** Each of the first `k` entries has its line, with the closing connector exactly when it
      is the last entry. */
  lemma BlocksListEntries(contents: string -> Listing, maxDepth: int, items: seq<Item>, k: nat,
                          depth: int, prefix: string, i: nat)
    requires i < k <= |items| && depth <= maxDepth
    ensures EntryLine(items[i], i == |items| - 1, prefix) in Blocks(contents, maxDepth, items, k, depth, prefix)
  {
    var x := EntryLine(items[i], i == |items| - 1, prefix);
    BlocksGrow(contents, maxDepth, items, i, depth, prefix, x);
    BlocksKeep(contents, maxDepth, items, i + 1, k, depth, prefix, x);
  }

  /** A line of the first `j` entries' blocks stays in the blocks of the first `k >= j`. */
  lemma {:induction false} BlocksKeep(contents: string -> Listing, maxDepth: int, items: seq<Item>, j: nat, k: nat,
                                      depth: int, prefix: string, x: string)
    requires j <= k <= |items| && depth <= maxDepth
    requires x in Blocks(contents, maxDepth, items, j, depth, prefix)
    ensures x in Blocks(contents, maxDepth, items, k, depth, prefix)
    decreases k - j
  {
    if j < k {
      BlocksGrow(contents, maxDepth, items, j, depth, prefix, x);
      BlocksKeep(contents, maxDepth, items, j + 1, k, depth, prefix, x);
    }
  }

  /** One more entry keeps the earlier lines and adds the entry's own line. */
  lemma BlocksGrow(contents: string -> Listing, maxDepth: int, items: seq<Item>, k: nat, depth: int, prefix: string,
                   x: string)
    requires k < |items| && depth <= maxDepth
    requires x in Blocks(contents, maxDepth, items, k, depth, prefix) || x == EntryLine(items[k], k == |items| - 1, prefix)
    ensures x in Blocks(contents, maxDepth, items, k + 1, depth, prefix)
  {
    BlocksStep(contents, maxDepth, items, k, depth, prefix);
    InBlock(Blocks(contents, maxDepth, items, k, depth, prefix), EntryLine(items[k], k == |items| - 1, prefix),
            if items[k].kind == "dir" && depth < maxDepth
            then Tree(contents, maxDepth, items[k].path, depth + 1, prefix + Indent(k == |items| - 1))
            else [],
            x);
  }

  /** A line of the earlier blocks, or the entry's own line, is in the block that follows. */
  lemma InBlock(before: seq<string>, line: string, sub: seq<string>, x: string)
    requires x in before || x == line
    ensures x in before + [line] + sub
  {
    if x == line {
      assert (before + [line] + sub)[|before|] == line;
    } else {
      var j :| 0 <= j < |before| && before[j] == x;
      assert (before + [line] + sub)[j] == x;
    }
  }

  /** Within the depth limit, the tree of a listable path has one line per arranged entry,
      marked "└── " exactly for the last one. */
  lemma TreeListsEntries(contents: string -> Listing, maxDepth: int, path: string, depth: int, prefix: string, i: nat)
    requires depth <= maxDepth && !contents(path).Denied? && i < |Arrange(contents(path))|
    ensures var items := Arrange(contents(path));
            EntryLine(items[i], i == |items| - 1, prefix) in Tree(contents, maxDepth, path, depth, prefix)
  {
    var items := Arrange(contents(path));
    BlocksListEntries(contents, maxDepth, items, |items|, depth, prefix, i);
  }

  /** The connector is "└── " exactly for the last entry. */
  lemma ConnectorMarksLast(item: Item, isLast: bool, prefix: string)
    ensures EntryLine(item, isLast, prefix)[|prefix|..|prefix| + 4] == Connector(isLast)
    ensures Connector(isLast) == LastConnector <==> isLast
  {
    assert LastConnector[0] != MidConnector[0];
  }

  /** At the depth limit, directories are listed but not expanded: only the entry lines. */
  lemma {:induction false} BlocksAtLimit(contents: string -> Listing, maxDepth: int, items: seq<Item>, k: nat,
                                         prefix: string)
    requires k <= |items|
    ensures Blocks(contents, maxDepth, items, k, maxDepth, prefix)
              == seq(k, i requires 0 <= i < k => EntryLine(items[i], i == |items| - 1, prefix))
  {
    if k > 0 {
      BlocksAtLimit(contents, maxDepth, items, k - 1, prefix);
    }
  }

  /** Below the limit there is nothing; at the limit a listable path shows only its own
      entries. */
  lemma TreeDepthLimit(contents: string -> Listing, maxDepth: int, path: string, depth: int, prefix: string)
    ensures depth > maxDepth ==> Tree(contents, maxDepth, path, depth, prefix) == []
    ensures depth == maxDepth && !contents(path).Denied? ==>
              var items := Arrange(contents(path));
              Tree(contents, maxDepth, path, depth, prefix)
                == seq(|items|, i requires 0 <= i < |items| => EntryLine(items[i], i == |items| - 1, prefix))
  {
    if depth == maxDepth && !contents(path).Denied? {
      var items := Arrange(contents(path));
      BlocksAtLimit(contents, maxDepth, items, |items|, prefix);
    }
  }

  /** A symlink or submodule inside a listed directory is not shown, but a path that is
      itself one is shown as a file. */
  lemma OtherTypesDropped(item: Item)
    requires item.kind != "dir" && item.kind != "file"
    ensures Arrange(Entries([item])) == []
    ensures Arrange(Single(item)) == [item]
  {
    assert [item][1..] == [];
    assert OfKind([item], "dir") == [] && OfKind([item], "file") == [];
  }
}
