# Repository analyzer core, in Dafny

This project models the deterministic core of the VS Code extension
"LangChain Repo Analyzer" (`src/analyzer.ts`). That core covers four things:

- **The scan.** `collectFiles` walks a repository depth-first. It skips every
  entry whose name contains an ignore pattern, and keeps regular files whose
  extension is supported. It stops once `maxFiles` paths are kept.
- **The summary.** `generateRepositorySummary` counts the kept files per
  extension and formats those counts. It also draws the directory tree and
  assembles the summary text.
- **The tree.** `buildDirectoryTree` inserts every relative path into a nested
  plain JavaScript object. Its inner `stringifyTree` draws that object with
  box-drawing characters.
- **The snippets.** `extractCodeSnippets` shows the first fifty lines of at
  most five files, each in a fenced block.

Modules:

- `Wrappers`: `Option` and `Result`.
- `Text`: substring search, `split` / `join` on one character, decimal
  numerals, and lines.
- `Paths`: POSIX `path.basename`, `path.extname`, `path.join` and
  `path.relative` on `/`-separated paths.
- `JsObject`: objects used as dictionaries. A value is a sequence of own
  properties in creation order, with property reads and writes. The module
  gives the order of `Object.entries`: array-index keys first, ascending, then
  the rest in creation order. It also lists the names every object inherits
  from `Object.prototype`.
- `Scanner`: the filesystem as a value, plus three layers:
  - the uncapped pre-order walk, as a trace of directory reads and kept paths;
  - the capped run, as the prefix of that trace a budget allows;
  - the `Collector` class, whose `result` field the traversal methods extend
    in place.
- `DirTree`: the tree as nested property lists. Insertion, the drawing (as
  lines), and the two loops of `buildDirectoryTree` and `stringifyTree` as
  methods.
- `Summary`: the per-extension tally, its formatting, and the summary text.
- `Snippets`: the sample, the fifty-line cut, the fenced blocks, and the loop
  that appends them.

Reading the disk is a parameter, not modelled I/O:

- A directory's listing is a `Listing` value: `Listed(entries)` in the order
  `readdir` returns them, or `Unreadable` when `readdir` throws.
- Reading a file is a function `string -> Option<string>`. It returns `None`
  when `readFile` throws.

## Model

| member | source | states |
|---|---|---|
| Scanner.Collector.TraverseDirectory | src/analyzer.ts:160-185 | appends to `result` exactly the kept paths of the capped walk of the directory, with the budget left on entry (`maxFiles - result.length`); it logs the directory reads done; it reports the directory whose listing threw; it returns at once when the cap is already reached |
| Scanner.Collector.TraverseEntries | src/analyzer.ts:167-184 | the `for` loop over a listing: it appends the kept paths of the capped walk of those entries, and breaks when the cap is reached |
| Scanner.Collector.VisitEntry | src/analyzer.ts:172-183 | one turn of the loop: an ignored entry adds nothing; a directory is walked recursively; a regular file with a supported extension is pushed as `join(dir, name)`; any other entry adds nothing |
| Scanner.Collector.constructor | src/analyzer.ts:158 | a collector starts with an empty `result` |
| Scanner.CollectFiles | src/analyzer.ts:157-189 | `collectFiles` returns `Collect(...)` with the source's own pattern and extension lists: the kept paths of the capped walk, or the error of the listing that threw |
| Scanner.CollectIsFirstPaths | src/analyzer.ts:161-170 | a successful scan returns exactly the first `maxFiles` paths of the uncapped pre-order walk, and never more than `maxFiles` |
| Scanner.CollectNonPositive | src/analyzer.ts:161-163 | with `maxFiles <= 0` no directory is listed and the result is empty |
| Scanner.CollectReadable | src/analyzer.ts:165 | when every listing in the tree can be read, the scan succeeds |
| Scanner.CollectFailure | src/analyzer.ts:165 | a failed scan names a directory whose listing threw; reading that listing is the last step the scan performs |
| Scanner.CollectSound | src/analyzer.ts:172-183 | every returned path is `root/` followed by a chain of entry names through which the tree reaches a file; no name in that chain matches an ignore pattern; the last name has a supported extension, which is also the extension of the path |
| Scanner.CollectComplete | src/analyzer.ts:172-183 | every file reachable through names that pass both filters is returned, unless the cap was reached |
| Scanner.IgnoredName | src/analyzer.ts:175 | a name is ignored when one of the ignore patterns occurs in it as a substring |
| Scanner.SupportedName | src/analyzer.ts:181 | a file name is supported when its `path.extname` is one of the supported extensions, compared exactly |
| Scanner.Collect | src/analyzer.ts:157-189 | `collectFiles` as a value, for a given pair of name tests: the kept paths of the walk from the root under the cap `maxFiles`, or the directory whose listing threw |
| Scanner.Walk | src/analyzer.ts:165-183 | the uncapped depth-first walk of a directory: its listing is read, then each entry is visited in listing order; a listing that throws ends the walk with that failure |
| Scanner.WalkEntry | src/analyzer.ts:172-183 | one entry of the walk: an entry whose name contains an ignore pattern is skipped; a directory is walked below `join(dir, name)`; a regular file with a supported extension is kept as `join(dir, name)`; anything else is skipped |
| Scanner.Processed | src/analyzer.ts:161-170 | the cap applied to the walk: with no budget left nothing more happens (the test at line 161 on entry, the break at line 168 inside the loop); otherwise each kept path uses one unit of budget, and nothing follows a listing that threw |
| Scanner.FirstPaths | src/analyzer.ts:161-170 | a capped run without failure keeps the first `budget` paths of the uncapped trace |
| Scanner.ProcessedSteps | src/analyzer.ts:161-170 | the capped run is an initial stretch of the uncapped walk. It stops early only after a failed listing or after the last allowed path |
| Scanner.WalkSound | src/analyzer.ts:172-183 | each path the uncapped walk keeps is below its directory, reached through non-ignored names, and ends in a supported file |
| Scanner.WalkComplete | src/analyzer.ts:172-183 | the uncapped walk keeps every path that is reachable through names that pass both filters |
| Scanner.FileSound | src/analyzer.ts:172-183 | a kept file's path is one segment below its directory, that segment is the entry name, and the path has the name's extension |
| Scanner.DirSound | src/analyzer.ts:172-180 | a path kept inside a subdirectory is kept below the parent through the subdirectory's name |
| Scanner.KeptConcat | src/analyzer.ts:167-184 | the kept paths of consecutive stretches of the walk are the concatenation of each stretch's paths |
| Scanner.ProcessedConcat | src/analyzer.ts:167-170 | the cap carries over from one entry to the next: the next entry gets the budget left by the earlier ones |
| Paths.JoinPath | src/analyzer.ts:172 | `path.join(dirPath, entry.name)`: the directory, one `/`, then the entry name |
| Paths.Extname | src/analyzer.ts:200 | `path.extname`: the base name from its last `.` to its end; empty when there is no dot, when the last dot is the first character, and for `..` |
| Paths.Basename | src/analyzer.ts:286 | `path.basename`: the part after the last `/`, trailing separators ignored |
| Paths.Relative | src/analyzer.ts:195 | `path.relative`: the segments of the target after the common leading segments, preceded by one `..` per remaining segment of the base |
| Paths.BasenameOfJoin | src/analyzer.ts:172-181 | `basename(join(dir, name))` is `name`, and the joined path has the extension of `name` |
| Paths.ExtnameEmptyIff | src/analyzer.ts:200 | `extname` is empty exactly when the base name has no dot after its first character, or is `..` |
| Paths.RelativeOfChild | src/analyzer.ts:195 | `relative(root, root + "/" + rel)` is `rel` |
| Summary.RelativePathsBelow | src/analyzer.ts:195 | the collected paths under `root` map back to the relative paths they were built from |
| Summary.RelativePaths | src/analyzer.ts:195 | each collected file mapped to its path relative to the root, in the same order |
| Summary.CountOf | src/analyzer.ts:201 | the count read before the increment: the count stored under the extension, or the default 0 when it has no property yet |
| Summary.Tally | src/analyzer.ts:198-202 | the count object as a function of the extensions: an extension seen before has its count raised by one, a new one is added last with count one |
| Summary.CountExtensions | src/analyzer.ts:198-202 | the counting loop builds the tally of the paths' extensions |
| Summary.TallyLookup | src/analyzer.ts:198-202 | an extension's count is its number of occurrences among the paths; an extension that does not occur has no property |
| Summary.TallyKeys | src/analyzer.ts:198-202 | the tally's keys are the distinct extensions, in order of first occurrence |
| Summary.TallyTotal | src/analyzer.ts:198-202 | the counts add up to the number of paths |
| Summary.TallyEntries | src/analyzer.ts:205 | `Object.entries` lists the tally in creation order, because no extension is an array index |
| Summary.ExtnameKey | src/analyzer.ts:200-201 | an extension is never an array index, and never the name of an inherited property |
| Summary.CountLine | src/analyzer.ts:206 | the line for one extension: the extension, `: `, the decimal count and ` files` |
| Summary.ExtensionSummary | src/analyzer.ts:205-207 | the count lines of the tally's `Object.entries`, joined by newlines |
| Summary.TallyLines | src/analyzer.ts:205-206 | the formatted lines are `ext: count files` for each distinct extension, in order of first occurrence, with its number of occurrences |
| Summary.ExtensionSummaryLines | src/analyzer.ts:205-207 | `extensionSummary` is those lines joined by newlines |
| Summary.GenerateRepositorySummary | src/analyzer.ts:194-222 | the summary is the template with the root, the number of files, the extension summary and the drawn tree of the relative paths |
| Summary.SummaryText | src/analyzer.ts:212-221 | the template literal of the summary, with the root path, the number of files, the extension summary and the directory structure in their places |
| Summary.SummaryTotals | src/analyzer.ts:198-214 | the per-extension counts in the summary add up to the "Total files analyzed" figure |
| JsObject.Lookup | src/analyzer.ts:239-245 | reading an own property of a plain object: its value, or nothing when the object has no such own key |
| JsObject.Put | src/analyzer.ts:201 | assigning a property: an existing key gets the new value in its place, a new key is added last |
| JsObject.Entries | src/analyzer.ts:253 | `Object.entries`: the array-index keys in ascending numeric order, then the other keys in creation order |
| JsObject.PutLookup | src/analyzer.ts:201 | after `obj[k] = v`, reading `k` gives `v`, and every other key reads as before |
| JsObject.PutKeys | src/analyzer.ts:201 | assigning an existing key keeps the key order; a new key is appended last |
| JsObject.EntriesPermutes | src/analyzer.ts:205 | `Object.entries` lists every own property exactly once |
| JsObject.EntriesIndexFirst | src/analyzer.ts:253 | in `Object.entries`, array-index keys come first and in ascending numeric order |
| JsObject.EntriesNoIndex | src/analyzer.ts:205 | without array-index keys, `Object.entries` is the creation order |
| DirTree.Segments | src/analyzer.ts:232 | the segments of a relative path, split on `/` |
| DirTree.Build | src/analyzer.ts:228-248 | the tree after each path's segments are inserted in turn into `{}` |
| DirTree.Insert | src/analyzer.ts:233-247 | inserting one split path: each directory segment reuses its own property when that holds a directory, and otherwise sets it to a new empty object (a file in the way is replaced); the last segment is set to `null`, a file leaf |
| DirTree.InsertAsWritten | src/analyzer.ts:242-245 | the same insertion with the source's test `!current[part]`, which also sees inherited properties: a directory segment named after an inherited property that is not an own key leaves the tree unchanged, because the rest of the path is written into the built-in |
| DirTree.Render | src/analyzer.ts:251-268 | the lines drawn for an object: its `Object.entries` in order, each with its subtree below it |
| DirTree.RenderList | src/analyzer.ts:255-265 | the lines of a run of entries: `├── name` for all but the last, `└── name` for the last, and a directory's lines below it under the prefix extended by `│   ` or by four blanks |
| DirTree.InsertExact | src/analyzer.ts:231-248 | after inserting a path, the tree holds that path. It also holds every earlier path that neither extends nor is extended by the new one, and nothing else |
| DirTree.InsertIdempotent | src/analyzer.ts:231-248 | inserting the same path twice is the same as inserting it once |
| DirTree.InsertWellFormed | src/analyzer.ts:231-248 | insertion keeps the tree free of duplicate keys at every level |
| DirTree.BuildHas | src/analyzer.ts:227-248 | for paths none of which is a directory of another, the tree holds exactly the listed paths |
| DirTree.BuildTree | src/analyzer.ts:228-248 | the outer loop of `buildDirectoryTree` builds the tree of all the relative paths |
| DirTree.RenderSize | src/analyzer.ts:251-268 | the drawing has one line per node of the tree |
| DirTree.RenderPrefix | src/analyzer.ts:258-263 | every line drawn under a prefix starts with that prefix |
| DirTree.RenderNewlines | src/analyzer.ts:259 | the drawn text ends each of its lines with a newline: as many newlines as nodes, when no name holds a newline |
| DirTree.RenderTopLines | src/analyzer.ts:255-259 | the lines at a node's own level are its keys in `Object.entries` order. Each is drawn with `├── `, except the last, which is drawn with `└── ` |
| DirTree.RenderPadded | src/analyzer.ts:261-263 | every line below a name is indented by the prefix and `│   ` while a later sibling follows, and by the prefix and four blanks after the last sibling |
| DirTree.StringifyTree | src/analyzer.ts:251-268 | `stringifyTree(node, prefix)` returns the drawing of the node as newline-terminated lines |
| DirTree.BuildDirectoryTree | src/analyzer.ts:227-271 | `buildDirectoryTree` returns the drawing of the tree of the relative paths |
| DirTree.AsWrittenAgrees | src/analyzer.ts:242-245 | the insertion as written agrees with own-property insertion on paths with no directory named after an inherited property |
| DirTree.BuildAsWritten | src/analyzer.ts:228-248 | the outer loop of `buildDirectoryTree` with the insertion as the source writes it |
| DirTree.BuildAsWrittenAgrees | src/analyzer.ts:228-248 | when no directory segment of any path is the name of an inherited property, the source's whole tree equals the tree of the corrected insertion |
| DirTree.AsWrittenLosesPath | src/analyzer.ts:242-245 | as written, `constructor/index.ts` leaves the tree empty and draws nothing; own-property insertion keeps it and draws two lines |
| Snippets.Sample | src/analyzer.ts:280 | the sampled files: all of them when there are at most five, otherwise the first five |
| Snippets.FirstLines | src/analyzer.ts:289 | the first fifty parts of the content split on newlines |
| Snippets.RemoveFirst | src/analyzer.ts:292 | `replace` with a one-character pattern: the first occurrence removed, the string unchanged when there is none |
| Snippets.FenceTag | src/analyzer.ts:292 | the fence's language tag: the file's extension with its first `.` removed |
| Snippets.Header | src/analyzer.ts:291-292 | the `File:` line with the base name, then the opening fence with its tag |
| Snippets.Block | src/analyzer.ts:291-294 | the block of one file: the `File:` header with its base name, the opening fence tagged with the extension, the lines shown, and the closing fence |
| Snippets.SnippetsOf | src/analyzer.ts:282-298 | the snippets of a list of files: the blocks of those that can be read, in order |
| Snippets.ExtractCodeSnippets | src/analyzer.ts:276-301 | the snippets are the blocks of the readable files among the first five, in order |
| Snippets.ShownIsStart | src/analyzer.ts:289-293 | the lines shown of a file are the start of its content |
| Snippets.ShownWhole | src/analyzer.ts:289-293 | a file with fewer than fifty newlines is shown whole |
| Snippets.ShownCut | src/analyzer.ts:289-293 | a file with fifty newlines or more is cut: what is shown is a proper start of it, containing exactly forty-nine newlines |
| Snippets.BlockBody | src/analyzer.ts:291-294 | a block is the header, then the lines shown, then the closing fence |
| Snippets.FenceTagOfExtension | src/analyzer.ts:285-292 | the fence is tagged with the extension without its dot, and is plain for a file without an extension |
| Snippets.SampleIgnoresRest | src/analyzer.ts:280 | files after the fifth do not affect the snippets |
| Snippets.NothingReadable | src/analyzer.ts:295-297 | when no sampled file can be read, the snippets are empty |
| Snippets.SnippetsAppend | src/analyzer.ts:282-298 | the snippets of two consecutive runs of files are the snippets of the first run followed by those of the second: each file contributes independently of the others |
| Snippets.UnreadableAnywhere | src/analyzer.ts:295-297 | a file that cannot be read, wherever it stands, contributes nothing and does not stop the loop: the snippets equal those of the files without it |
| Snippets.AppendSnippet | src/analyzer.ts:283-297 | one turn of the loop: the snippets so far become those of the files so far plus this one, its block when it can be read and nothing when it cannot |
| Text.Contains | src/analyzer.ts:175 | `includes`: the pattern occurs at some position of the string |
| Text.Split | src/analyzer.ts:232 | `split` on one character: the maximal separator-free pieces, in order, one more than there are separators |
| Text.Join | src/analyzer.ts:293 | `join` with one character: the pieces with the separator between each two |
| Text.Unlines | src/analyzer.ts:259 | the text built by `result += line + '\n'`: each line followed by a newline |
| Text.Decimal | src/analyzer.ts:206 | the decimal numeral of a count, as a template literal writes it |
| Text.JoinSplit | src/analyzer.ts:289-293 | joining the parts of a split gives back the string |
| Text.SplitJoin | src/analyzer.ts:232 | splitting a join of separator-free parts gives back the parts |
| Text.SplitCount | src/analyzer.ts:289 | a string splits into one more part than it has separators |
| Text.DecimalRoundTrip | src/analyzer.ts:206 | the decimal numeral of a count reads back as that count |

## Left out

- The language-model calls: `analyzeRepository`, `analyzeFile`, the prompts,
  and configuration reads (src/analyzer.ts:24-152). They depend on a remote
  service and on VS Code.
- `extractDependencies` (src/analyzer.ts:306-348) is not part of this model.
  Its regular expressions are outside the named core.
- src/extension.ts, src/webview-provider.ts, src/langchain-utils.ts and
  media/main.js are not part of this model. They are user interface and glue.
- Asynchrony: every `await` is modelled as a sequential call. Nothing else
  runs concurrently with a scan.
- `console.error` in `extractCodeSnippets` is output only and is left out.
- Only POSIX paths are modelled: `path.sep` is `/`. On Windows
  `buildDirectoryTree` splits on `\`.
- Scanner.CollectFiles: the error is the directory whose listing threw, not
  the exception object.
- Scanner.CollectFiles: the steps after that error are not modelled. In the
  source the rejection propagates out of `collectFiles`.
- Paths.JoinPath: `path.join` normalisation is not modelled. The model joins
  with one `/`, which is exact for a directory without a trailing separator
  and a plain entry name.
- Paths.JoinPath: `.` and `..` segments are not collapsed. `readdir` never
  returns them.
- Paths.Relative: this is `path.relative` on `/`-separated segments only. It
  does not resolve against the working directory, and it does not normalise
  `.`, `..` or repeated separators. It is exact for the normalised absolute
  paths the scanner produces.
- DirTree.Insert: the inner moving-pointer loop of `buildDirectoryTree` is
  modelled on values, by recursion into the child property list. Aliasing of
  the nested objects is not modelled. The outer loop is a method.
- DirTree.InsertAsWritten: paths containing `__proto__` are excluded.
  Assigning to `__proto__` replaces an object's prototype, which this model
  does not represent.
- The `Filters` pair generalises the two name tests. The traversal lemmas hold
  for any pair. `CollectFiles` uses the source's own lists.
- `readFile` with `'utf-8'`: decoding bytes to text is not modelled. Contents
  are already strings.
- Scanner.CollectFiles: `maxFiles` is an integer. In the source it is a
  JavaScript number: a fractional cap acts as its ceiling (2.5 keeps three
  paths) and an unset cap (`undefined`, `NaN`) never stops the scan.
- DirTree.BuildTree: it uses the corrected own-property insertion
  `DirTree.Insert`, not the test at src/analyzer.ts:242 as written.
  `DirTree.BuildAsWrittenAgrees` proves the whole tree equal to the source's
  `DirTree.BuildAsWritten` whenever no directory segment of any path is the
  name of an `Object.prototype` property (see Findings).
- DirTree.BuildDirectoryTree: it draws the tree built by the corrected
  insertion; by `DirTree.BuildAsWrittenAgrees` that is the source's tree
  whenever no directory segment of any path is the name of an
  `Object.prototype` property.
- Summary.GenerateRepositorySummary: its directory structure comes from the
  corrected insertion; by `DirTree.BuildAsWrittenAgrees` it is the source's
  whenever no directory segment of any path is the name of an
  `Object.prototype` property.
- DirTree.InsertAsWritten: writes that land outside the tree are dropped, and
  `Object.prototype` is taken as fixed. In the source they are real writes:
  `constructor/prototype/src/a.ts` sets `Object.prototype.src`, after which
  every object inherits a truthy `src`, so a later `src/b.ts` also lands
  outside the tree, in that call and in every later `buildDirectoryTree`
  call of the same process. Neither that lasting effect nor the `TypeError`
  a strict-mode bundle throws when `current` becomes a primitive
  (`constructor/name/x.ts`) is represented.
- Scanner.CollectFiles: the ghost log of directory reads is a specification
  aid. It has no counterpart in the source.

## Findings

| source | as written | input that shows it | evidently intended | confidence | as-written member | corrected member |
|---|---|---|---|---|---|---|
| src/analyzer.ts:242-245 | `if (!current[part])` also reads properties inherited from `Object.prototype`. For a directory named `constructor`, `toString`, `valueOf`, ... the test is false (a function is truthy), so no node is created, and `current` moves into the built-in function. | the relative path `constructor/index.ts`: the tree stays empty, and the summary's directory structure omits the file. Through `constructor/prototype/...` the write reaches `Object.prototype` and outlasts the call | create an own directory node unless one already exists, and draw `└── constructor` with `    └── index.ts` below it | not executed | DirTree.InsertAsWritten, DirTree.AsWrittenLosesPath | DirTree.Insert, DirTree.InsertExact |
