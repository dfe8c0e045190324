/** The inclusion policy: whether a file or a directory met during the walk is
    kept, from the include and exclude glob lists and the `includePriority` flag. */
module Filter {
  import opened Host

  datatype FilterOptions = FilterOptions(
    includes: seq<string>,
    excludes: seq<string>,
    includePriority: bool)

  /** One pattern matches a path when it matches the cwd-relative form with
      dotfiles allowed, or the base name in match-base mode (dotfiles not allowed). */
  predicate PatternHits(h: Host, relativePath: string, baseName: string, pattern: string)
  {
    h.globDot(relativePath, pattern) || h.globMatchBase(baseName, pattern)
  }

  /** The same test, stated on the path as the caller gives it. */
  predicate PathHits(h: Host, filePath: string, pattern: string)
  {
    PatternHits(h, h.relativeToCwd(h.normalize(filePath)), h.baseName(filePath), pattern)
  }

  /** `patterns.some(...)` */
  function AnyPatternHits(h: Host, relativePath: string, baseName: string, patterns: seq<string>): (r: bool)
    ensures r <==> exists i :: 0 <= i < |patterns| && PatternHits(h, relativePath, baseName, patterns[i])
  {
    if patterns == [] then false
    else if PatternHits(h, relativePath, baseName, patterns[0]) then true
    else
      var r := AnyPatternHits(h, relativePath, baseName, patterns[1..]);
      assert forall i :: 1 <= i < |patterns| ==> patterns[i] == patterns[1..][i - 1];
      r
  }

  /** `matchesPattern`: true exactly when some pattern of the list matches the path. */
  function MatchesPattern(h: Host, filePath: string, patterns: seq<string>): (r: bool)
    ensures r <==> exists i :: 0 <= i < |patterns| && PathHits(h, filePath, patterns[i])
  {
    var relativePath := h.relativeToCwd(h.normalize(filePath));
    AnyPatternHits(h, relativePath, h.baseName(filePath), patterns)
  }

  /** `shouldIncludeFile`: with priority, an include match keeps the file and an
      exclude match then drops it; without priority, an exclude match drops it and
      an include match then keeps it; a file no rule decides is kept only when
      there are no include patterns. */
  function ShouldIncludeFile(h: Host, filePath: string, options: FilterOptions): (r: bool)
    ensures var inc := MatchesPattern(h, filePath, options.includes);
            var exc := MatchesPattern(h, filePath, options.excludes);
            r == if options.includePriority then inc || (!exc && options.includes == [])
                 else !exc && (inc || options.includes == [])
  {
    if options.includePriority then
      if MatchesPattern(h, filePath, options.includes) then true
      else if MatchesPattern(h, filePath, options.excludes) then false
      else |options.includes| == 0
    else
      if MatchesPattern(h, filePath, options.excludes) then false
      else if MatchesPattern(h, filePath, options.includes) then true
      else |options.includes| == 0
  }

  /** `shouldIncludeDirectory`: a directory is dropped only by an exclude match,
      and with priority an include match overrides that; an undecided directory
      is always kept. */
  function ShouldIncludeDirectory(h: Host, dirPath: string, options: FilterOptions): (r: bool)
    ensures r == (!MatchesPattern(h, dirPath, options.excludes)
                  || (options.includePriority && MatchesPattern(h, dirPath, options.includes)))
  {
    if options.includePriority && MatchesPattern(h, dirPath, options.includes) then true
    else if MatchesPattern(h, dirPath, options.excludes) then false
    else if !options.includePriority && MatchesPattern(h, dirPath, options.includes) then true
    else true
  }

  /** Adding patterns never turns a match into a non-match. */
  lemma MatchesPatternMonotone(h: Host, filePath: string, patterns: seq<string>, more: seq<string>)
    requires forall i :: 0 <= i < |patterns| ==> patterns[i] in more
    requires MatchesPattern(h, filePath, patterns)
    ensures MatchesPattern(h, filePath, more)
  {
  }

  /** Only which patterns occur matters: not their order, nor repetitions. */
  lemma MatchesPatternOrderFree(h: Host, filePath: string, patterns: seq<string>, others: seq<string>)
    requires forall p :: p in patterns <==> p in others
    ensures MatchesPattern(h, filePath, patterns) == MatchesPattern(h, filePath, others)
  {
    if MatchesPattern(h, filePath, patterns) {
      MatchesPatternMonotone(h, filePath, patterns, others);
    }
    if MatchesPattern(h, filePath, others) {
      MatchesPatternMonotone(h, filePath, others, patterns);
    }
  }

  /** With no patterns at all, every file and every directory is kept. */
  lemma EmptyListsKeepEverything(h: Host, path: string, includePriority: bool)
    ensures ShouldIncludeFile(h, path, FilterOptions([], [], includePriority))
    ensures ShouldIncludeDirectory(h, path, FilterOptions([], [], includePriority))
  {
  }

  /** With priority, an include match keeps a file or a directory whatever the
      exclude patterns say. */
  lemma IncludeWinsWithPriority(h: Host, path: string, options: FilterOptions, pattern: string)
    requires options.includePriority
    requires pattern in options.includes && PathHits(h, path, pattern)
    ensures ShouldIncludeFile(h, path, options)
    ensures ShouldIncludeDirectory(h, path, options)
  {
  }

  /** Without priority, an exclude match drops a file or a directory whatever the
      include patterns say. */
  lemma ExcludeWinsWithoutPriority(h: Host, path: string, options: FilterOptions, pattern: string)
    requires !options.includePriority
    requires pattern in options.excludes && PathHits(h, path, pattern)
    ensures !ShouldIncludeFile(h, path, options)
    ensures !ShouldIncludeDirectory(h, path, options)
  {
  }

  /** A path matched by both lists is kept exactly when include has priority,
      for files and directories alike. */
  lemma ConflictResolvedByPriority(h: Host, path: string, options: FilterOptions)
    requires MatchesPattern(h, path, options.includes)
    requires MatchesPattern(h, path, options.excludes)
    ensures ShouldIncludeFile(h, path, options) == options.includePriority
    ensures ShouldIncludeDirectory(h, path, options) == options.includePriority
  {
  }

  /** A file that no pattern matches is kept exactly when the include list is empty. */
  lemma UnmatchedFileKeptIffNoInclude(h: Host, path: string, options: FilterOptions)
    requires !MatchesPattern(h, path, options.includes)
    requires !MatchesPattern(h, path, options.excludes)
    ensures ShouldIncludeFile(h, path, options) <==> options.includes == []
  {
  }

  /** A directory that no exclude pattern matches is kept, whatever the include
      list and the priority: include patterns never prune the walk. */
  lemma UnexcludedDirectoryKept(h: Host, path: string, options: FilterOptions)
    requires !MatchesPattern(h, path, options.excludes)
    ensures ShouldIncludeDirectory(h, path, options)
  {
  }

  /** A kept file is kept as a directory too: the file rule is the stricter one. */
  lemma FileKeptImpliesDirectoryKept(h: Host, path: string, options: FilterOptions)
    requires ShouldIncludeFile(h, path, options)
    ensures ShouldIncludeDirectory(h, path, options)
  {
  }

  /** Both decisions depend on the pattern lists only through the patterns they
      contain: reordering or repeating patterns changes nothing. */
  lemma DecisionsIgnorePatternOrder(h: Host, path: string, options: FilterOptions, reordered: FilterOptions)
    requires forall p :: p in options.includes <==> p in reordered.includes
    requires forall p :: p in options.excludes <==> p in reordered.excludes
    requires options.includePriority == reordered.includePriority
    ensures ShouldIncludeFile(h, path, options) == ShouldIncludeFile(h, path, reordered)
    ensures ShouldIncludeDirectory(h, path, options) == ShouldIncludeDirectory(h, path, reordered)
  {
    MatchesPatternOrderFree(h, path, options.includes, reordered.includes);
    MatchesPatternOrderFree(h, path, options.excludes, reordered.excludes);
    if options.includes != [] {
      assert options.includes[0] in reordered.includes;
    }
    if reordered.includes != [] {
      assert reordered.includes[0] in options.includes;
    }
  }
}
