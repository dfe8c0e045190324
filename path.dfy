/** The walker and its serialisers: `traverseDirectory`, `traverse`,
    `formatTree` and `addLineNumbers`. The file system is an input tree of
    entries, listed in the order the operating system reports them. */
module Path {
  import opened Text
  import opened Host
  import opened Filter

  /** A directory entry as `fs.readdir(..., { withFileTypes: true })` reports it,
      with a file's text and a directory's own listing attached. */
  datatype Entry =
    | File(name: string, content: string)
    | Dir(name: string, entries: seq<Entry>)
    | Other(name: string)  // symlink, socket, device: neither a file nor a directory

  datatype TreeNode = TreeNode(name: string, children: seq<TreeNode>)

  datatype CollectedFile = CollectedFile(path: string, code: string)

  datatype TraverseResult = TraverseResult(tree: string, files: seq<CollectedFile>)

  datatype TraverseOptions = TraverseOptions(
    includes: seq<string>,
    excludes: seq<string>,
    includePriority: bool,
    lineNumber: bool)
  {
    /** The part of the options the inclusion policy reads. */
    function Policy(): FilterOptions
    {
      FilterOptions(includes, excludes, includePriority)
    }
  }

  // ---------------------------------------------------------------------------
  // addLineNumbers

  /** What line `index` (counted from 0) is prefixed with: its 1-based number and " | ". */
  function LinePrefix(index: nat): string
  {
    DecimalString(index + 1) + " | "
  }

  function NumberLines(lines: seq<string>): seq<string>
  {
    seq(|lines|, i requires 0 <= i < |lines| => LinePrefix(i) + lines[i])
  }

  /** `addLineNumbers`: with the flag off the code is returned untouched. */
  function AddLineNumbers(code: string, addLineNumbers: bool): (r: string)
    ensures !addLineNumbers ==> r == code
  {
    if addLineNumbers then Join(NumberLines(Split(code, '\n')), '\n') else code
  }

  // ---------------------------------------------------------------------------
  // formatTree

  function Connector(isLast: bool): string
  {
    if isLast then "└── " else "├── "
  }

  function ChildIndent(isLast: bool): string
  {
    if isLast then "    " else "│   "
  }

  /** `formatTree(tree, prefix)`: each node rendered with its index, then joined.
      An empty forest renders as nothing; otherwise the text opens with the first
      node's line, which has the corner connector exactly when it is the only node. */
  function FormatTree(tree: seq<TreeNode>, prefix: string): (r: string)
    ensures r == "" <==> tree == []
    ensures tree != [] ==> prefix + Connector(|tree| == 1) + tree[0].name + "\n" <= r
    decreases tree
  {
    var blocks := seq(|tree|, i requires 0 <= i < |tree| => FormatNode(tree, i, prefix));
    assert tree != [] ==> Concat(blocks) == blocks[0] + Concat(blocks[1..]);
    Concat(blocks)
  }

  /** The `map` callback of `formatTree`: the node's line comes first, and the
      text holds a newline for the node and for each line its children render. */
  function FormatNode(tree: seq<TreeNode>, index: nat, prefix: string): (r: string)
    requires index < |tree|
    ensures prefix + Connector(index == |tree| - 1) + tree[index].name + "\n" <= r
    ensures Count(r, '\n') > Count(tree[index].name, '\n')
    decreases tree, 0
  {
    var isLast := index == |tree| - 1;
    var line := prefix + Connector(isLast) + tree[index].name + "\n";
    var childPrefix := prefix + ChildIndent(isLast);
    var head := prefix + Connector(isLast);
    var rest := FormatTree(tree[index].children, childPrefix);
    CountAppend(line, rest, '\n');
    CountAppend(head + tree[index].name, "\n", '\n');
    CountAppend(head, tree[index].name, '\n');
    line + rest
  }

  // ---------------------------------------------------------------------------
  // What `traverse` appends, as functions of the entry list

  predicate DirectoryKept(h: Host, o: TraverseOptions, relativePath: string, name: string)
  {
    ShouldIncludeDirectory(h, h.join(relativePath, name), o.Policy())
  }

  predicate FileKept(h: Host, o: TraverseOptions, currentPath: string, name: string)
  {
    ShouldIncludeFile(h, h.join(currentPath, name), o.Policy())
  }

  /** How many files lie under a listing, at any depth. */
  function FileCount(entries: seq<Entry>): nat
    decreases entries
  {
    if entries == [] then 0
    else FileCount(entries[..|entries| - 1]) + EntryFileCount(entries[|entries| - 1])
  }

  function EntryFileCount(e: Entry): nat
    decreases e
  {
    match e
    case File(_, _) => 1
    case Dir(_, entries) => FileCount(entries)
    case Other(_) => 0
  }

  /** The names of a listing's entries, in order. */
  function Names(entries: seq<Entry>): seq<string>
  {
    seq(|entries|, i requires 0 <= i < |entries| => entries[i].name)
  }

  /** The children one entry adds to the current node: at most one, named after it. */
  function EntryNodes(h: Host, o: TraverseOptions, currentPath: string, relativePath: string, e: Entry): (r: seq<TreeNode>)
    ensures |r| <= 1
    ensures forall k :: 0 <= k < |r| ==> r[k].name == e.name
    decreases e
  {
    match e
    case Dir(name, entries) =>
      if DirectoryKept(h, o, relativePath, name) then
        [TreeNode(name, Forest(h, o, h.join(currentPath, name), h.join(relativePath, name), entries))]
      else []
    case File(name, _) =>
      if FileKept(h, o, currentPath, name) then [TreeNode(name, [])] else []
    case Other(_) => []
  }

  /** The children a directory listing adds to the current node, in entry order:
      no more children than entries. */
  function Forest(h: Host, o: TraverseOptions, currentPath: string, relativePath: string, entries: seq<Entry>): (r: seq<TreeNode>)
    ensures |r| <= |entries|
    decreases entries
  {
    if entries == [] then []
    else
      Forest(h, o, currentPath, relativePath, entries[..|entries| - 1])
      + EntryNodes(h, o, currentPath, relativePath, entries[|entries| - 1])
  }

  /** Every child is named after an entry of the listing. */
  lemma {:induction false} ForestNamesFromListing(h: Host, o: TraverseOptions, currentPath: string,
                                                  relativePath: string, entries: seq<Entry>)
    ensures forall k :: 0 <= k < |Forest(h, o, currentPath, relativePath, entries)| ==>
              Forest(h, o, currentPath, relativePath, entries)[k].name in Names(entries)
    decreases entries
  {
    if entries != [] {
      var front := entries[..|entries| - 1];
      var last := entries[|entries| - 1];
      ForestNamesFromListing(h, o, currentPath, relativePath, front);
      assert Names(entries) == Names(front) + [last.name];
      var head := Forest(h, o, currentPath, relativePath, front);
      var tail := EntryNodes(h, o, currentPath, relativePath, last);
      var r := Forest(h, o, currentPath, relativePath, entries);
      assert r == head + tail;
      forall k | 0 <= k < |r|
        ensures r[k].name in Names(entries)
      {
        if k < |head| {
          assert r[k] == head[k];
          assert head[k].name in Names(front);
          var j :| 0 <= j < |Names(front)| && Names(front)[j] == head[k].name;
          assert Names(entries)[j] == Names(front)[j];
        } else {
          assert r[k] == tail[k - |head|];
          assert Names(entries)[|entries| - 1] == last.name;
        }
      }
    }
  }

  /** The files one entry adds to the shared list: at most one record per file
      under it. */
  function EntryFiles(h: Host, o: TraverseOptions, currentPath: string, relativePath: string, e: Entry): (r: seq<CollectedFile>)
    ensures |r| <= EntryFileCount(e)
    decreases e
  {
    match e
    case Dir(name, entries) =>
      if DirectoryKept(h, o, relativePath, name) then
        FilesOf(h, o, h.join(currentPath, name), h.join(relativePath, name), entries)
      else []
    case File(name, content) =>
      if FileKept(h, o, currentPath, name) then
        [CollectedFile(h.join(relativePath, name), AddLineNumbers(content, o.lineNumber))]
      else []
    case Other(_) => []
  }

  /** The files a directory listing adds to the shared list, in entry order: at
      most one record per file under the listing. */
  function FilesOf(h: Host, o: TraverseOptions, currentPath: string, relativePath: string, entries: seq<Entry>): (r: seq<CollectedFile>)
    ensures |r| <= FileCount(entries)
    decreases entries
  {
    if entries == [] then []
    else FilesOf(h, o, currentPath, relativePath, entries[..|entries| - 1])
         + EntryFiles(h, o, currentPath, relativePath, entries[|entries| - 1])
  }

  /** With no include and no exclude patterns, every file under the listing is
      collected, at any depth. */
  lemma {:induction false} NoPatternsCollectEveryFile(h: Host, o: TraverseOptions, currentPath: string,
                                                      relativePath: string, entries: seq<Entry>)
    requires o.includes == [] && o.excludes == []
    ensures |FilesOf(h, o, currentPath, relativePath, entries)| == FileCount(entries)
    decreases entries
  {
    if entries != [] {
      NoPatternsCollectEveryFile(h, o, currentPath, relativePath, entries[..|entries| - 1]);
      NoPatternsCollectEntryFiles(h, o, currentPath, relativePath, entries[|entries| - 1]);
    }
  }

  lemma {:induction false} NoPatternsCollectEntryFiles(h: Host, o: TraverseOptions, currentPath: string,
                                                       relativePath: string, e: Entry)
    requires o.includes == [] && o.excludes == []
    ensures |EntryFiles(h, o, currentPath, relativePath, e)| == EntryFileCount(e)
    decreases e
  {
    match e
    case Dir(name, entries) =>
      NoPatternsCollectEveryFile(h, o, h.join(currentPath, name), h.join(relativePath, name), entries);
    case File(_, _) =>
    case Other(_) =>
  }

  // ---------------------------------------------------------------------------
  // The walk

  /** The `files` array that every level of the walk pushes onto. */
  class FileList {
    var items: seq<CollectedFile>

    constructor ()
      ensures items == []
    {
      items := [];
    }

    method Push(f: CollectedFile)
      modifies this
      ensures items == old(items) + [f]
    {
      items := items + [f];
    }
  }

  /** One more entry of the listing adds exactly what that entry contributes. */
  lemma WalkStep(h: Host, o: TraverseOptions, currentPath: string, relativePath: string,
                 entries: seq<Entry>, i: nat)
    requires i < |entries|
    ensures Forest(h, o, currentPath, relativePath, entries[..i + 1])
            == Forest(h, o, currentPath, relativePath, entries[..i]) + EntryNodes(h, o, currentPath, relativePath, entries[i])
    ensures FilesOf(h, o, currentPath, relativePath, entries[..i + 1])
            == FilesOf(h, o, currentPath, relativePath, entries[..i]) + EntryFiles(h, o, currentPath, relativePath, entries[i])
  {
    assert entries[..i + 1][..i] == entries[..i];
  }

  lemma AppendAssociates<T>(a: seq<T>, b: seq<T>, c: seq<T>)
    ensures a + b + c == a + (b + c)
  {
  }

  /** `traverse`: visits `entries` (the listing of `currentPath`) in order,
      returns the children of the current node and pushes kept files onto `files`. */
  method Traverse(h: Host, o: TraverseOptions, currentPath: string, relativePath: string,
                  entries: seq<Entry>, files: FileList)
    returns (children: seq<TreeNode>)
    modifies files
    ensures children == Forest(h, o, currentPath, relativePath, entries)
    ensures files.items == old(files.items) + FilesOf(h, o, currentPath, relativePath, entries)
    decreases entries
  {
    children := [];
    var i := 0;
    while i < |entries|
      invariant 0 <= i <= |entries|
      invariant children == Forest(h, o, currentPath, relativePath, entries[..i])
      invariant files.items == old(files.items) + FilesOf(h, o, currentPath, relativePath, entries[..i])
    {
      var entry := entries[i];
      var fullPath := h.join(currentPath, entry.name);
      var relPath := h.join(relativePath, entry.name);
      ghost var before := files.items;
      ghost var done := FilesOf(h, o, currentPath, relativePath, entries[..i]);
      if entry.Dir? && ShouldIncludeDirectory(h, relPath, o.Policy()) {
        var sub := Traverse(h, o, fullPath, relPath, entry.entries, files);
        children := children + [TreeNode(entry.name, sub)];
        assert EntryNodes(h, o, currentPath, relativePath, entry) == [TreeNode(entry.name, sub)];
        assert EntryFiles(h, o, currentPath, relativePath, entry)
            == FilesOf(h, o, fullPath, relPath, entry.entries);
      } else if entry.File? && ShouldIncludeFile(h, fullPath, o.Policy()) {
        children := children + [TreeNode(entry.name, [])];
        var record := CollectedFile(relPath, AddLineNumbers(entry.content, o.lineNumber));
        files.Push(record);
        assert EntryNodes(h, o, currentPath, relativePath, entry) == [TreeNode(entry.name, [])];
        assert EntryFiles(h, o, currentPath, relativePath, entry) == [record];
      } else {
        assert EntryNodes(h, o, currentPath, relativePath, entry) == [];
        assert EntryFiles(h, o, currentPath, relativePath, entry) == [];
      }
      ghost var added := EntryFiles(h, o, currentPath, relativePath, entry);
      assert files.items == before + added;
      WalkStep(h, o, currentPath, relativePath, entries, i);
      AppendAssociates(old(files.items), done, added);
      i := i + 1;
    }
    assert entries[..i] == entries;
  }

  /** `traverseDirectory`: walks the listing of `rootPath` from an empty relative
      path; the tree text renders only the root's children, never the root. */
  method TraverseDirectory(h: Host, rootPath: string, rootEntries: seq<Entry>, options: TraverseOptions)
    returns (result: TraverseResult)
    ensures result.tree == FormatTree(Forest(h, options, rootPath, "", rootEntries), "")
    ensures result.files == FilesOf(h, options, rootPath, "", rootEntries)
  {
    var files := new FileList();
    var children := Traverse(h, options, rootPath, "", rootEntries, files);
    var rootNode := TreeNode(h.baseName(rootPath), children);
    result := TraverseResult(FormatTree(rootNode.children, ""), files.items);
  }
}
