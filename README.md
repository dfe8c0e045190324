# code2prompt-node: filtering and tree-building core, in Dafny

code2prompt-node turns a source tree into one prompt document for a language
model. It walks a directory and keeps or drops each entry by include and exclude
glob patterns. It renders the kept entries as a box-drawing tree and collects
each kept file's text, with line numbers if asked. This project models the
decision logic at the centre of that: the inclusion policy (`src/filter.ts`), the
walker and its two serialisers (`src/path.ts`), and the parsing of the
comma-separated pattern arguments (`processPatterns` in `src/index.ts`). It then
proves what they promise.

Files and modules:

- `host.dfy` (`Host`): the Node.js library calls the core makes. These are
  `path.normalize`, `path.relative(process.cwd(), ·)`, `path.basename`,
  `path.join`, and `minimatch` in its two option sets (`dot: true` for the full
  path, `matchBase: true` for the base name). They are passed in as function
  values, so every result below holds for any behaviour of those libraries.
- `text.dfy` (`Text`): JavaScript `split`/`join` on one-character separators
  (`"".split(c)` is `[""]`), the decimal printing of `${n}`, and character
  counting. It also proves that split undoes join.
- `filter.dfy` (`Filter`): `matchesPattern`, `shouldIncludeFile` and
  `shouldIncludeDirectory`. They keep their early-return structure. Each one's
  contract gives its closed form, and lemmas give the precedence rules.
- `path.dfy` (`Path`): the file system is an input tree of `Entry` values
  (`File`, `Dir`, `Other`), listed in the order the operating system reports
  them. It holds `addLineNumbers`, `formatTree`, the imperative `Traverse` (a
  loop over the entries that recurses into kept directories and pushes onto a
  shared `FileList`), and `TraverseDirectory`. `Traverse` is proved against the
  specification functions `Forest` (the children it builds) and `FilesOf` (the
  files it pushes).
- `render_properties.dfy` (`RenderProperties`): `formatTree` set against an
  outline with one row per node in pre-order. `addLineNumbers` set against its
  inverse, `StripLineNumbers`.
- `walk_properties.dfy` (`WalkProperties`): the walk set against `Sites`, an
  enumeration of every file and directory under the root that ignores the policy.
  The walk keeps exactly the sites that pass their own check and whose
  enclosing directories all passed theirs. This is sticky exclusion.
- `cli.dfy` (`Cli`): `processPatterns`.

Three behaviours of the code that the model keeps as written:

- A directory that no pattern matches is always kept, even when the include list
  is non-empty (`src/filter.ts:80`). With include `src/**` and exclude
  `**/*.test.ts`, a `node_modules` directory therefore appears in the tree as a
  node with no children, and only its file `x.js` is dropped.
  `WalkProperties.SourceOnlyScenario` proves this.
- The directory check receives the root-relative `relPath`
  (`src/path.ts:75`), but the file check receives `fullPath`, which is the root
  path joined with the name (`src/path.ts:80`). So file patterns match the path
  relative to the process's working directory. Directory patterns match the path
  relative to the walked root. The model keeps this as it is (`Path.FileKept`,
  `Path.DirectoryKept`, `WalkProperties.Admitted`).
- Base-name matching does not pass `dot: true` (`src/filter.ts:22-24`), so the
  two glob modes are separate host functions.

## Model

| member | source | states |
|---|---|---|
| `Filter.AnyPatternHits` | src/filter.ts:20-26 | `patterns.some(...)` is true exactly when some pattern matches the relative path (dot mode) or the base name (match-base mode) |
| `Filter.MatchesPattern` | src/filter.ts:16-27 | true exactly when some pattern of the list matches the normalised cwd-relative path or the base name; so an empty list never matches |
| `Filter.ShouldIncludeFile` | src/filter.ts:35-54 | closed form of the early-return rules: with priority `in \|\| (!ex && include == [])`, otherwise `!ex && (in \|\| include == [])` |
| `Filter.ShouldIncludeDirectory` | src/filter.ts:62-81 | closed form of the early-return rules: `!ex \|\| (priority && in)` |
| `Filter.MatchesPatternMonotone` | src/filter.ts:20-26 | adding patterns never turns a match into a non-match |
| `Filter.MatchesPatternOrderFree` | src/filter.ts:20-26 | two lists with the same patterns give the same answer, whatever their order or repetitions |
| `Filter.EmptyListsKeepEverything` | src/filter.ts:35-81 | with empty include and exclude lists every file and every directory is kept |
| `Filter.IncludeWinsWithPriority` | src/filter.ts:40-68 | with priority, an include match keeps the file and the directory whatever exclude says |
| `Filter.ExcludeWinsWithoutPriority` | src/filter.ts:45-72 | without priority, an exclude match drops the file and the directory whatever include says |
| `Filter.ConflictResolvedByPriority` | src/filter.ts:40-77 | a path matched by both lists is kept exactly when `includePriority` is set, for files and for directories |
| `Filter.UnmatchedFileKeptIffNoInclude` | src/filter.ts:40-53 | a file no pattern matches is kept if and only if the include list is empty |
| `Filter.UnexcludedDirectoryKept` | src/filter.ts:67-80 | a directory no exclude pattern matches is kept, whatever the include list and the priority |
| `Filter.FileKeptImpliesDirectoryKept` | src/filter.ts:35-81 | the file rule is the stricter one: a path kept as a file is kept as a directory |
| `Filter.DecisionsIgnorePatternOrder` | src/filter.ts:35-81 | both decisions depend on the lists only through which patterns they contain, not on order or repetitions |
| `Text.Split` | src/path.ts:119 | `s.split(sep)`: never an empty list, no piece holds the separator, and joining the pieces with the separator gives `s` back |
| `Text.Join` | src/path.ts:121 | `xs.join(sep)`: `[]` gives `""`; otherwise the pieces' characters plus exactly `\|xs\| - 1` separators, no more and no fewer |
| `Text.SplitJoin` | src/path.ts:119-121 | `split` undoes `join` when no piece holds the separator |
| `Text.DecimalString` | src/path.ts:120 | `${n}`: decimal digits only, a leading `0` only for `0`, and reading the digits back gives `n` |
| `Path.AddLineNumbers` | src/path.ts:116-123 | with the flag off the code is returned unchanged |
| `Path.FormatTree` | src/path.ts:98-108 | an empty forest renders as `""` and a non-empty one as non-empty text opening with the first node's line, which carries the corner connector exactly when that node has no siblings |
| `Path.FormatNode` | src/path.ts:100-106 | a node's block opens with its own line (prefix, connector chosen by whether it is the last sibling, name, newline) and holds at least one newline more than its name |
| `Path.Forest` | src/path.ts:71-88 | the children `traverse` pushes onto the current node, in entry order: at most one per entry |
| `Path.ForestNamesFromListing` | src/path.ts:77-82 | every child pushed onto a node is named after an entry of that node's listing |
| `Path.FilesOf` | src/path.ts:71-88 | the records `traverse` pushes onto the shared files list, in entry order: at most one per file under the listing |
| `Path.NoPatternsCollectEveryFile` | src/path.ts:71-88 | with no include and no exclude patterns, the walk collects one record for every file at any depth |
| `Path.FileList.constructor` | src/path.ts:44 | the shared files list starts empty |
| `Path.FileList.Push` | src/path.ts:84-87 | pushing appends exactly one record at the end |
| `Path.Traverse` | src/path.ts:62-90 | the children built are `Forest(entries)`, and the files list gains exactly `FilesOf(entries)` at its end, with nothing else changed |
| `Path.TraverseDirectory` | src/path.ts:39-52 | the tree text is `formatTree` of the root's children only (the root name is never rendered), and the files are those of the walk from the root with an empty relative path |
| `RenderProperties.AddLineNumbersLines` | src/path.ts:116-123 | with the flag on, the output has as many lines as `code.split("\n")`, and line i is `i+1`, `" \| "`, then the original line i |
| `RenderProperties.StripUndoesAddLineNumbers` | src/path.ts:116-123 | removing the `"<n> \| "` prefixes line by line gives back the original text, including empty text and trailing empty lines |
| `RenderProperties.FormatTreeFirst` | src/path.ts:98-108 | a non-empty forest renders as its first node's block followed by the rest |
| `RenderProperties.FormatTreeIsOutline` | src/path.ts:98-108 | the tree text is one line per node in pre-order: the prefix, `"    "` or `"│   "` per ancestor by whether it was last, `"└── "` for a last sibling and `"├── "` otherwise, the name, a newline |
| `RenderProperties.OutlineSize` | src/path.ts:98-108 | the outline has exactly one row per node |
| `RenderProperties.SiblingConnectors` | src/path.ts:100-103 | siblings appear in their order, and only the last one gets the corner connector |
| `RenderProperties.FormatTreeLineCount` | src/path.ts:98-108 | the tree text holds exactly one newline per node (names without line breaks), and the empty forest renders as `""` |
| `WalkProperties.FilesAreAdmittedSites` | src/path.ts:62-90 | the files list is exactly the admitted file sites in pre-order, each recorded under its relative path with its possibly numbered text |
| `WalkProperties.EntryFilesAreAdmittedSites` | src/path.ts:75-88 | the same, for the files one entry contributes |
| `WalkProperties.TreeIsAdmittedSites` | src/path.ts:62-90 | the tree has a node for exactly the admitted sites, files and directories, in pre-order and under the same name paths |
| `WalkProperties.EntryNodesAreAdmittedSites` | src/path.ts:75-82 | the same, for the nodes one entry contributes |
| `WalkProperties.WalkAppend` | src/path.ts:71-89 | the walk follows entry order without re-sorting: walking `a + b` yields `a`'s files and nodes followed by `b`'s |
| `WalkProperties.ExcludedDirectoryAddsNothing` | src/path.ts:75-79 | sticky exclusion: a directory failing the directory check adds nothing to the files or the tree, whatever it contains |
| `WalkProperties.OtherEntryAddsNothing` | src/path.ts:75-80 | entries that are neither files nor directories are skipped |
| `WalkProperties.SelectedAreAdmitted` | src/path.ts:75-80 | what the walk keeps is drawn from the enumeration and passes every check on its way down |
| `WalkProperties.CollectedFileOrigin` | src/path.ts:80-87 | every collected file is a file under the root that passed the file check on its full path, with every enclosing directory passing the directory check; its code is `addLineNumbers(content, lineNumber)` |
| `WalkProperties.SourceOnlyScenario` | src/path.ts:62-90 | the worked scenario: only `src/a.ts` is collected, and `node_modules` stays in the tree as an empty directory node |
| `Cli.DropEmpty` | src/index.ts:54 | `filter(Boolean)`: every kept piece is non-empty and comes from the list, every non-empty piece is kept, and no characters are lost |
| `Cli.DropEmptyAppend` | src/index.ts:54 | the filter works piece by piece: filtering `a + b` gives the filtered `a` followed by the filtered `b`, so the kept pieces keep their order |
| `Cli.ProcessPatterns` | src/index.ts:53-55 | `""` gives no patterns; no pattern is empty or holds a comma; together the patterns hold every character of the argument except the commas |
| `Cli.ProcessPatternsSegments` | src/index.ts:53-55 | for every argument, written as its comma-free segments joined by commas, the patterns are exactly those segments in order with the empty ones dropped |
| `Cli.ProcessPatternsDropsEmptySegment` | src/index.ts:54 | `"a,,b"` gives `["a", "b"]` |
| `Cli.ProcessPatternsRoundTrip` | src/index.ts:53-55 | a list of non-empty, comma-free patterns joined with commas parses back to the same list |

## Left out

- `fs.readdir`, `fs.readFile` and async/await: a directory's listing and a file's text are fields of the input `Entry` tree. Errors from listing or reading (permission denied, an entry removed between the listing and the read) are not modelled. In Node neither invalid UTF-8 (it is replaced, not rejected) nor a broken link (listed as a symbolic link, so an `Other` entry) raises one.
- `minimatch`, `path.normalize`, `path.relative(process.cwd(), ·)`, `path.basename` and `path.join` are library calls. They are parameters (`Host`), not implementations. A malformed pattern is whatever the glob function answers for it.
- `Path.Traverse`: the source pushes an empty `subNode` onto the parent and then fills it in place during the recursive call. The model builds the subtree as a value and appends it after the call. The final tree is the same. Aliasing of `subNode` is not modelled, because nothing else refers to it.
- `src/template.ts` (Handlebars rendering), `src/git.ts` (`git diff` through a child process) and `src/token.ts` (token counting) are library wrappers and are not part of this model.
- In `src/index.ts`: `setupCommandLine` (argument parsing), `main` (template file reading, output writing, console logging) and `prepareTemplateData` (glue around the walker and the diff) are I/O and are not modelled.
