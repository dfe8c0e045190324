/** What the walk promises, stated against an enumeration of every file and
    directory under the root that ignores the inclusion policy: the walk keeps,
    in pre-order, exactly the entries whose own check passes and whose every
    enclosing directory passed its check (sticky exclusion). */
module WalkProperties {
  import opened Host
  import opened Filter
  import opened Path

  datatype Kind = FileKind | DirKind

  /** A file or directory somewhere under the root, with the relative paths of
      the directories enclosing it (outermost first), the names leading to it,
      the two paths the walk computes for it, and a file's text. */
  datatype Site = Site(
    kind: Kind,
    guards: seq<string>,
    names: seq<string>,
    fullPath: string,
    relPath: string,
    content: string)

  /** Every file and directory under `e`, in pre-order, `Other` entries left out. */
  function EntrySites(h: Host, currentPath: string, relativePath: string, e: Entry): seq<Site>
    decreases e
  {
    var fullPath := h.join(currentPath, e.name);
    var relPath := h.join(relativePath, e.name);
    match e
    case File(name, content) => [Site(FileKind, [], [name], fullPath, relPath, content)]
    case Dir(name, entries) =>
      [Site(DirKind, [], [name], fullPath, relPath, "")]
      + Under(relPath, name, Sites(h, fullPath, relPath, entries))
    case Other(_) => []
  }

  function Sites(h: Host, currentPath: string, relativePath: string, entries: seq<Entry>): seq<Site>
    decreases entries
  {
    if entries == [] then []
    else Sites(h, currentPath, relativePath, entries[..|entries| - 1])
         + EntrySites(h, currentPath, relativePath, entries[|entries| - 1])
  }

  /** The sites of a directory's contents, seen from the directory's parent. */
  function Under(guard: string, name: string, sites: seq<Site>): (r: seq<Site>)
    ensures |r| == |sites|
  {
    if sites == [] then []
    else [sites[0].(guards := [guard] + sites[0].guards, names := [name] + sites[0].names)]
         + Under(guard, name, sites[1..])
  }

  /** A site survives the walk when every enclosing directory passed the
      directory check on its relative path, and the site passes its own check:
      a directory on its relative path, a file on its full path. */
  predicate Admitted(h: Host, o: TraverseOptions, s: Site)
  {
    (forall k :: 0 <= k < |s.guards| ==> ShouldIncludeDirectory(h, s.guards[k], o.Policy()))
    && (match s.kind
        case DirKind => ShouldIncludeDirectory(h, s.relPath, o.Policy())
        case FileKind => ShouldIncludeFile(h, s.fullPath, o.Policy()))
  }

  function Select(h: Host, o: TraverseOptions, sites: seq<Site>): seq<Site>
  {
    if sites == [] then []
    else (if Admitted(h, o, sites[0]) then [sites[0]] else []) + Select(h, o, sites[1..])
  }

  /** What the files list records of the file sites: the relative path and the
      (possibly numbered) text. */
  function Collect(o: TraverseOptions, sites: seq<Site>): seq<CollectedFile>
  {
    if sites == [] then []
    else (if sites[0].kind == FileKind
          then [CollectedFile(sites[0].relPath, AddLineNumbers(sites[0].content, o.lineNumber))]
          else [])
         + Collect(o, sites[1..])
  }

  function NamePaths(sites: seq<Site>): seq<seq<string>>
  {
    if sites == [] then [] else [sites[0].names] + NamePaths(sites[1..])
  }

  function Prefixed(name: string, paths: seq<seq<string>>): seq<seq<string>>
  {
    if paths == [] then [] else [[name] + paths[0]] + Prefixed(name, paths[1..])
  }

  /** The name path of every node of a forest, in pre-order. */
  function NodePaths(tree: seq<TreeNode>): seq<seq<string>>
    decreases tree
  {
    if tree == [] then []
    else [[tree[0].name]] + Prefixed(tree[0].name, NodePaths(tree[0].children)) + NodePaths(tree[1..])
  }

  // ---------------------------------------------------------------------------
  // Distribution over concatenation

  lemma {:induction false} SelectAppend(h: Host, o: TraverseOptions, a: seq<Site>, b: seq<Site>)
    ensures Select(h, o, a + b) == Select(h, o, a) + Select(h, o, b)
  {
    if a == [] {
      assert a + b == b;
    } else {
      assert (a + b)[0] == a[0] && (a + b)[1..] == a[1..] + b;
      SelectAppend(h, o, a[1..], b);
    }
  }

  lemma {:induction false} CollectAppend(o: TraverseOptions, a: seq<Site>, b: seq<Site>)
    ensures Collect(o, a + b) == Collect(o, a) + Collect(o, b)
  {
    if a == [] {
      assert a + b == b;
    } else {
      assert (a + b)[0] == a[0] && (a + b)[1..] == a[1..] + b;
      CollectAppend(o, a[1..], b);
    }
  }

  lemma {:induction false} NamePathsAppend(a: seq<Site>, b: seq<Site>)
    ensures NamePaths(a + b) == NamePaths(a) + NamePaths(b)
  {
    if a == [] {
      assert a + b == b;
    } else {
      assert (a + b)[0] == a[0] && (a + b)[1..] == a[1..] + b;
      NamePathsAppend(a[1..], b);
    }
  }

  lemma {:induction false} NodePathsAppend(a: seq<TreeNode>, b: seq<TreeNode>)
    ensures NodePaths(a + b) == NodePaths(a) + NodePaths(b)
    decreases a
  {
    if a == [] {
      assert a + b == b;
    } else {
      assert (a + b)[0] == a[0] && (a + b)[1..] == a[1..] + b;
      NodePathsAppend(a[1..], b);
    }
  }

  lemma {:induction false} SelectUnder(h: Host, o: TraverseOptions, guard: string, name: string, sites: seq<Site>)
    ensures Select(h, o, Under(guard, name, sites))
            == if ShouldIncludeDirectory(h, guard, o.Policy()) then Under(guard, name, Select(h, o, sites)) else []
  {
    if sites != [] {
      SelectUnder(h, o, guard, name, sites[1..]);
      var s := sites[0];
      var t := s.(guards := [guard] + s.guards, names := [name] + s.names);
      var keep := ShouldIncludeDirectory(h, guard, o.Policy());
      if Admitted(h, o, t) {
        assert t.guards[0] == guard;
        forall k | 0 <= k < |s.guards|
          ensures ShouldIncludeDirectory(h, s.guards[k], o.Policy())
        {
          assert t.guards[k + 1] == s.guards[k];
        }
      }
      if keep && Admitted(h, o, s) {
        forall k | 0 <= k < |t.guards|
          ensures ShouldIncludeDirectory(h, t.guards[k], o.Policy())
        {
          if k > 0 {
            assert t.guards[k] == s.guards[k - 1];
          }
        }
      }
      assert Admitted(h, o, t) <==> keep && Admitted(h, o, s);
      var under := Under(guard, name, sites);
      assert under[0] == t && under[1..] == Under(guard, name, sites[1..]);
      var kept := Select(h, o, sites);
      if keep && Admitted(h, o, s) {
        assert kept[0] == s && kept[1..] == Select(h, o, sites[1..]);
        assert Under(guard, name, kept) == [t] + Under(guard, name, kept[1..]);
        assert Select(h, o, under) == [t] + Select(h, o, under[1..]);
      } else if keep {
        assert kept == Select(h, o, sites[1..]);
        assert Select(h, o, under) == Select(h, o, under[1..]);
      } else {
        assert Select(h, o, under) == Select(h, o, under[1..]);
      }
    }
  }

  lemma {:induction false} CollectUnder(o: TraverseOptions, guard: string, name: string, sites: seq<Site>)
    ensures Collect(o, Under(guard, name, sites)) == Collect(o, sites)
  {
    if sites != [] {
      CollectUnder(o, guard, name, sites[1..]);
    }
  }

  lemma {:induction false} NamePathsUnder(guard: string, name: string, sites: seq<Site>)
    ensures NamePaths(Under(guard, name, sites)) == Prefixed(name, NamePaths(sites))
  {
    if sites != [] {
      NamePathsUnder(guard, name, sites[1..]);
    }
  }

  // ---------------------------------------------------------------------------
  // The walk keeps exactly the admitted sites

  /** The files list is the admitted file sites, in pre-order, as the walk
      records them. */
  lemma {:induction false} FilesAreAdmittedSites(h: Host, o: TraverseOptions, currentPath: string,
                                                relativePath: string, entries: seq<Entry>)
    ensures FilesOf(h, o, currentPath, relativePath, entries)
            == Collect(o, Select(h, o, Sites(h, currentPath, relativePath, entries)))
    decreases entries
  {
    if entries != [] {
      var init := entries[..|entries| - 1];
      var last := entries[|entries| - 1];
      FilesAreAdmittedSites(h, o, currentPath, relativePath, init);
      EntryFilesAreAdmittedSites(h, o, currentPath, relativePath, last);
      SelectAppend(h, o, Sites(h, currentPath, relativePath, init), EntrySites(h, currentPath, relativePath, last));
      CollectAppend(o, Select(h, o, Sites(h, currentPath, relativePath, init)),
                    Select(h, o, EntrySites(h, currentPath, relativePath, last)));
    }
  }

  lemma {:induction false} EntryFilesAreAdmittedSites(h: Host, o: TraverseOptions, currentPath: string,
                                                     relativePath: string, e: Entry)
    ensures EntryFiles(h, o, currentPath, relativePath, e)
            == Collect(o, Select(h, o, EntrySites(h, currentPath, relativePath, e)))
    decreases e
  {
    match e
    case File(name, content) =>
    case Other(_) =>
    case Dir(name, entries) =>
      var fullPath := h.join(currentPath, name);
      var relPath := h.join(relativePath, name);
      var self := Site(DirKind, [], [name], fullPath, relPath, "");
      var inner := Sites(h, fullPath, relPath, entries);
      FilesAreAdmittedSites(h, o, fullPath, relPath, entries);
      SelectAppend(h, o, [self], Under(relPath, name, inner));
      SelectUnder(h, o, relPath, name, inner);
      CollectAppend(o, Select(h, o, [self]), Select(h, o, Under(relPath, name, inner)));
      CollectUnder(o, relPath, name, Select(h, o, inner));
  }

  /** The tree holds a node for exactly the admitted sites, files and
      directories alike, in pre-order and under the same names. */
  lemma {:induction false} TreeIsAdmittedSites(h: Host, o: TraverseOptions, currentPath: string,
                                              relativePath: string, entries: seq<Entry>)
    ensures NodePaths(Forest(h, o, currentPath, relativePath, entries))
            == NamePaths(Select(h, o, Sites(h, currentPath, relativePath, entries)))
    decreases entries
  {
    if entries != [] {
      var init := entries[..|entries| - 1];
      var last := entries[|entries| - 1];
      TreeIsAdmittedSites(h, o, currentPath, relativePath, init);
      EntryNodesAreAdmittedSites(h, o, currentPath, relativePath, last);
      NodePathsAppend(Forest(h, o, currentPath, relativePath, init), EntryNodes(h, o, currentPath, relativePath, last));
      SelectAppend(h, o, Sites(h, currentPath, relativePath, init), EntrySites(h, currentPath, relativePath, last));
      NamePathsAppend(Select(h, o, Sites(h, currentPath, relativePath, init)),
                      Select(h, o, EntrySites(h, currentPath, relativePath, last)));
    }
  }

  lemma {:induction false} EntryNodesAreAdmittedSites(h: Host, o: TraverseOptions, currentPath: string,
                                                     relativePath: string, e: Entry)
    ensures NodePaths(EntryNodes(h, o, currentPath, relativePath, e))
            == NamePaths(Select(h, o, EntrySites(h, currentPath, relativePath, e)))
    decreases e
  {
    match e
    case File(name, content) =>
    case Other(_) =>
    case Dir(name, entries) =>
      var fullPath := h.join(currentPath, name);
      var relPath := h.join(relativePath, name);
      var self := Site(DirKind, [], [name], fullPath, relPath, "");
      var inner := Sites(h, fullPath, relPath, entries);
      TreeIsAdmittedSites(h, o, fullPath, relPath, entries);
      SelectAppend(h, o, [self], Under(relPath, name, inner));
      SelectUnder(h, o, relPath, name, inner);
      NamePathsAppend(Select(h, o, [self]), Select(h, o, Under(relPath, name, inner)));
      NamePathsUnder(relPath, name, Select(h, o, inner));
  }

  // ---------------------------------------------------------------------------
  // Consequences

  lemma {:induction false} WalkAppend(h: Host, o: TraverseOptions, currentPath: string, relativePath: string,
                                      a: seq<Entry>, b: seq<Entry>)
    ensures FilesOf(h, o, currentPath, relativePath, a + b)
            == FilesOf(h, o, currentPath, relativePath, a) + FilesOf(h, o, currentPath, relativePath, b)
    ensures Forest(h, o, currentPath, relativePath, a + b)
            == Forest(h, o, currentPath, relativePath, a) + Forest(h, o, currentPath, relativePath, b)
    decreases |b|
  {
    if b == [] {
      assert a + b == a;
    } else {
      var ab := a + b;
      var e := b[|b| - 1];
      assert ab[..|ab| - 1] == a + b[..|b| - 1] && ab[|ab| - 1] == e;
      WalkAppend(h, o, currentPath, relativePath, a, b[..|b| - 1]);
      AppendAssociates(FilesOf(h, o, currentPath, relativePath, a),
                       FilesOf(h, o, currentPath, relativePath, b[..|b| - 1]),
                       EntryFiles(h, o, currentPath, relativePath, e));
      AppendAssociates(Forest(h, o, currentPath, relativePath, a),
                       Forest(h, o, currentPath, relativePath, b[..|b| - 1]),
                       EntryNodes(h, o, currentPath, relativePath, e));
    }
  }

  /** Sticky exclusion: a directory that fails the directory check contributes
      nothing to the files or to the tree, whatever it contains. */
  lemma ExcludedDirectoryAddsNothing(h: Host, o: TraverseOptions, currentPath: string, relativePath: string,
                                     before: seq<Entry>, name: string, entries: seq<Entry>, after: seq<Entry>)
    requires !ShouldIncludeDirectory(h, h.join(relativePath, name), o.Policy())
    ensures FilesOf(h, o, currentPath, relativePath, before + [Dir(name, entries)] + after)
            == FilesOf(h, o, currentPath, relativePath, before + after)
    ensures Forest(h, o, currentPath, relativePath, before + [Dir(name, entries)] + after)
            == Forest(h, o, currentPath, relativePath, before + after)
  {
    var d := [Dir(name, entries)];
    assert d[..0] == [];
    assert FilesOf(h, o, currentPath, relativePath, d) == [];
    assert Forest(h, o, currentPath, relativePath, d) == [];
    WalkAppend(h, o, currentPath, relativePath, before + d, after);
    WalkAppend(h, o, currentPath, relativePath, before, d);
    WalkAppend(h, o, currentPath, relativePath, before, after);
    assert before + d + [] == before + d;
  }

  /** Entries that are neither files nor directories are skipped. */
  lemma OtherEntryAddsNothing(h: Host, o: TraverseOptions, currentPath: string, relativePath: string,
                              before: seq<Entry>, name: string, after: seq<Entry>)
    ensures FilesOf(h, o, currentPath, relativePath, before + [Other(name)] + after)
            == FilesOf(h, o, currentPath, relativePath, before + after)
    ensures Forest(h, o, currentPath, relativePath, before + [Other(name)] + after)
            == Forest(h, o, currentPath, relativePath, before + after)
  {
    var d := [Other(name)];
    assert d[..0] == [];
    assert FilesOf(h, o, currentPath, relativePath, d) == [];
    assert Forest(h, o, currentPath, relativePath, d) == [];
    WalkAppend(h, o, currentPath, relativePath, before + d, after);
    WalkAppend(h, o, currentPath, relativePath, before, d);
    WalkAppend(h, o, currentPath, relativePath, before, after);
    assert before + d + [] == before + d;
  }

  lemma {:induction false} SelectedAreAdmitted(h: Host, o: TraverseOptions, sites: seq<Site>)
    ensures forall s :: s in Select(h, o, sites) ==> s in sites && Admitted(h, o, s)
  {
    if sites != [] {
      SelectedAreAdmitted(h, o, sites[1..]);
    }
  }

  lemma {:induction false} CollectedFromFileSites(o: TraverseOptions, sites: seq<Site>)
    ensures forall f :: f in Collect(o, sites) ==>
              exists s :: s in sites && s.kind == FileKind
                          && f == CollectedFile(s.relPath, AddLineNumbers(s.content, o.lineNumber))
  {
    if sites != [] {
      CollectedFromFileSites(o, sites[1..]);
      forall f | f in Collect(o, sites)
        ensures exists s :: s in sites && s.kind == FileKind
                            && f == CollectedFile(s.relPath, AddLineNumbers(s.content, o.lineNumber))
      {
        if f !in Collect(o, sites[1..]) {
          assert sites[0] in sites;
        }
      }
    }
  }

  /** Every collected file is a file under the root whose enclosing directories
      all passed the directory check and which passed the file check on its full
      path; it is recorded under its relative path with its (possibly numbered) text. */
  lemma CollectedFileOrigin(h: Host, o: TraverseOptions, rootPath: string, entries: seq<Entry>, f: CollectedFile)
    requires f in FilesOf(h, o, rootPath, "", entries)
    ensures exists s :: s in Sites(h, rootPath, "", entries) && s.kind == FileKind
                        && (forall k :: 0 <= k < |s.guards| ==> ShouldIncludeDirectory(h, s.guards[k], o.Policy()))
                        && ShouldIncludeFile(h, s.fullPath, o.Policy())
                        && f == CollectedFile(s.relPath, AddLineNumbers(s.content, o.lineNumber))
  {
    var sites := Sites(h, rootPath, "", entries);
    FilesAreAdmittedSites(h, o, rootPath, "", entries);
    CollectedFromFileSites(o, Select(h, o, sites));
    SelectedAreAdmitted(h, o, sites);
    var s :| s in Select(h, o, sites) && s.kind == FileKind
             && f == CollectedFile(s.relPath, AddLineNumbers(s.content, o.lineNumber));
    assert s in sites && Admitted(h, o, s);
  }

  // ---------------------------------------------------------------------------
  // A worked scenario

  // Root holding src/a.ts, src/b.test.ts and node_modules/x.js; the include
  // list holds one pattern for everything under src, the exclude list one for
  // every test file, and include has no priority. On any host whose glob answers
  // are the usual ones for these names only src/a.ts is collected; node_modules
  // matches no exclude pattern, so the directory rule keeps it and it appears in
  // the tree as a node without children.
  lemma SourceOnlyScenario(h: Host, rootPath: string, a: string, b: string, x: string)
    requires var src, nm := h.join(rootPath, "src"), h.join(rootPath, "node_modules");
             !PathHits(h, h.join("", "src"), "**/*.test.ts")
             && !PathHits(h, h.join("", "node_modules"), "**/*.test.ts")
             && !PathHits(h, h.join(src, "a.ts"), "**/*.test.ts") && PathHits(h, h.join(src, "a.ts"), "src/**")
             && PathHits(h, h.join(src, "b.test.ts"), "**/*.test.ts")
             && !PathHits(h, h.join(nm, "x.js"), "**/*.test.ts") && !PathHits(h, h.join(nm, "x.js"), "src/**")
    ensures var o := TraverseOptions(["src/**"], ["**/*.test.ts"], false, false);
            var entries := [Dir("src", [File("a.ts", a), File("b.test.ts", b)]),
                            Dir("node_modules", [File("x.js", x)])];
            FilesOf(h, o, rootPath, "", entries) == [CollectedFile(h.join(h.join("", "src"), "a.ts"), a)]
            && Forest(h, o, rootPath, "", entries)
               == [TreeNode("src", [TreeNode("a.ts", [])]), TreeNode("node_modules", [])]
  {
    var o := TraverseOptions(["src/**"], ["**/*.test.ts"], false, false);
    var srcEntries := [File("a.ts", a), File("b.test.ts", b)];
    var nmEntries := [File("x.js", x)];
    var entries := [Dir("src", srcEntries), Dir("node_modules", nmEntries)];
    var src, nm := h.join(rootPath, "src"), h.join(rootPath, "node_modules");
    var relSrc, relNm := h.join("", "src"), h.join("", "node_modules");
    assert entries[..1] == [Dir("src", srcEntries)] && [Dir("src", srcEntries)][..0] == [];
    assert srcEntries[..1] == [File("a.ts", a)] && [File("a.ts", a)][..0] == [];
    assert nmEntries[..0] == [];
    assert ShouldIncludeDirectory(h, relSrc, o.Policy());
    assert ShouldIncludeDirectory(h, relNm, o.Policy());
    assert ShouldIncludeFile(h, h.join(src, "a.ts"), o.Policy()) by {
      assert o.Policy().includes[0] == "src/**";
    }
    assert !ShouldIncludeFile(h, h.join(src, "b.test.ts"), o.Policy()) by {
      assert o.Policy().excludes[0] == "**/*.test.ts";
    }
    assert !ShouldIncludeFile(h, h.join(nm, "x.js"), o.Policy());
    assert EntryFiles(h, o, src, relSrc, File("a.ts", a)) == [CollectedFile(h.join(relSrc, "a.ts"), a)];
    assert EntryFiles(h, o, src, relSrc, File("b.test.ts", b)) == [];
    assert FilesOf(h, o, src, relSrc, [File("a.ts", a)]) == [CollectedFile(h.join(relSrc, "a.ts"), a)];
    assert FilesOf(h, o, src, relSrc, srcEntries) == [CollectedFile(h.join(relSrc, "a.ts"), a)];
    assert FilesOf(h, o, nm, relNm, nmEntries) == [];
    assert EntryNodes(h, o, src, relSrc, File("a.ts", a)) == [TreeNode("a.ts", [])];
    assert EntryNodes(h, o, src, relSrc, File("b.test.ts", b)) == [];
    assert Forest(h, o, src, relSrc, [File("a.ts", a)]) == [TreeNode("a.ts", [])];
    assert Forest(h, o, src, relSrc, srcEntries) == [TreeNode("a.ts", [])];
    assert Forest(h, o, nm, relNm, nmEntries) == [];
    assert EntryFiles(h, o, rootPath, "", Dir("src", srcEntries)) == [CollectedFile(h.join(relSrc, "a.ts"), a)];
    assert EntryFiles(h, o, rootPath, "", Dir("node_modules", nmEntries)) == [];
    assert FilesOf(h, o, rootPath, "", entries[..1]) == [CollectedFile(h.join(relSrc, "a.ts"), a)];
    assert EntryNodes(h, o, rootPath, "", Dir("src", srcEntries)) == [TreeNode("src", [TreeNode("a.ts", [])])];
    assert EntryNodes(h, o, rootPath, "", Dir("node_modules", nmEntries)) == [TreeNode("node_modules", [])];
    assert Forest(h, o, rootPath, "", entries[..1]) == [TreeNode("src", [TreeNode("a.ts", [])])];
  }
}
