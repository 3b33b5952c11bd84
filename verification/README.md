# Code Collector, modelled in Dafny

Code Collector is an IntelliJ plugin. It copies a set of Java and Kotlin files to the clipboard, each behind a header. The set is either:

- the files the user selected, plus every project source file they depend on, followed through imports and resolved usages ("smart" collection); or
- every source file of the project.

This project models, as pure Dafny functions over plain data, the logic at the core of that plugin:

- **The dependency-closure walk** (`Collector`). This is `ContextCollector` of `CodeCollector.kt`: a depth-first walk with a shared `processed` set. It tolerates unreadable files (exceptions are caught), clears the resolver cache at the start of every call, and accepts only official project source. It also covers the source-root tree walk of `collectAllFiles`.
- **The second copy of the walk** (`CoreCollector`). This is `core/ContextCollector.kt`. It has no exception handling, so the first unreadable file fails the whole call. It accepts any file by extension, keeps the resolver cache across calls, and its `collectAllFiles` reads the project's Java files and then its Kotlin files.
- **The resolver** (`Resolver`). This is `JvmResolver`: one class lookup in the context file's module scope, an eligibility test, and a cache keyed by name.
- **The parser's rules** (`Parser`). This is `JavaKotlinParser`. It turns imports, and the usages the PSI visitors meet, into an ordered, de-duplicated list of names to follow.
- **The output formatter** (`Formatter`). This is `formatContexts` and the line total the collect action reports. `core/ContextCollector.kt` (lines 80-94) holds an identical copy of `formatContexts`, so the same functions model both.
- **The settings page's pattern list** (`Configurable`). This is `CodeCollectorConfigurable`: drag-and-drop reorder, add, edit, remove, and the `apply`/`reset`/`isModified` round trip.

`Text` holds the Kotlin string operations the code relies on (`startsWith`, `contains`, `removePrefix`, `isBlank`, `trim`, `lines()`, `Int.toString`). `Files` holds paths, names and extensions. `Project` describes the host. `Walks` holds the walk state and growth facts shared by both walks.

The IntelliJ host is the datatype `Project.Host`. It is a set of total functions, and files are identified by their paths. Its functions answer:

- what the project file index says about a file;
- what `findClass` returns for a name in a scope (a file, no class, a class without a file, or an exception);
- a file's text, or `None` when reading throws;
- the parsed PSI of a file, or `None` when `findFile` gives null.

The walks terminate because every file a lookup can produce lies in a finite `universe` (`Project.Closed`). The walks do not assume their own correctness: their invariants are proved in separate lemmas, by mutual induction over the same recursion.

Three behaviours of the code are easy to miss:

- `getOrPut` treats a stored null as absent, so a null answer is looked up again for the next asker (`Resolver.NullIsRecomputed`).
- When the context file has a module, only the module scope is searched; nothing falls back to the whole project (`Resolver.NoProjectScopeRetry`).
- `core/ContextCollector.kt` never clears the resolver cache, so answers stored by earlier calls are reused (`CoreCollector.CollectFromFiles`).

## Model

| member | source | states |
|---|---|---|
| Text.RemovePrefix | src/main/kotlin/don/codecollector/CodeCollector.kt:164 | the result put back behind the prefix gives the input when the input starts with the prefix; otherwise the input is returned as is |
| Text.Trim | src/main/kotlin/don/codecollector/settings/CodeCollectorConfigurable.kt:237 | the result is the slice of the input between a whitespace-only head and a whitespace-only tail, and when non-empty it begins and ends with non-whitespace |
| Text.TrimBlank | src/main/kotlin/don/codecollector/settings/CodeCollectorConfigurable.kt:236-237 | a string is blank exactly when it trims to the empty string, so a non-blank answer never trims to a blank pattern |
| Text.TrimIdempotent | src/main/kotlin/don/codecollector/settings/CodeCollectorConfigurable.kt:273 | trimming a trimmed pattern changes nothing |
| Text.SplitLines | src/main/kotlin/don/codecollector/CodeCollector.kt:119 | `lines()` yields at least one line, and no line holds a CR or LF |
| Text.LineCountIsSeparatorsPlusOne | src/main/kotlin/don/codecollector/CodeCollector.kt:119-120 | the line count is the number of separators (CRLF counting once) plus one, so it is at least 1 even for empty content |
| Text.SplitJoinRoundTrip | src/main/kotlin/don/codecollector/CodeCollector.kt:119 | for CR-free text, joining the lines with LF gives back the text |
| Text.NatToStringDigits | src/main/kotlin/don/codecollector/CodeCollector.kt:121 | the header's numbers are non-empty decimal digit strings without a leading zero |
| Text.NatToStringRoundTrip | src/main/kotlin/don/codecollector/CodeCollector.kt:121 | a number written into a header reads back as the same number |
| Text.ContainsIffOccurs | src/main/kotlin/don/codecollector/resolvers/JvmResolver.kt:74 | `contains` holds exactly when the substring occurs at some offset |
| Files.LastIndexOf | src/main/kotlin/don/codecollector/CodeCollector.kt:134 | the index of the last occurrence, or -1 exactly when there is none |
| Files.FileName | src/main/kotlin/don/codecollector/CodeCollector.kt:163 | the file's name is a '/'-free suffix of its path |
| Files.FileNameIsLastSegment | src/main/kotlin/don/codecollector/CodeCollector.kt:163 | the file's name is either the whole path or starts right after a '/', so with the suffix property it is the last segment |
| Files.FileNameOfChild | src/main/kotlin/don/codecollector/CodeCollector.kt:163 | the name of a file `<dir>/<name>` is `<name>` whenever `<name>` has no '/' |
| Files.Extension | src/main/kotlin/don/codecollector/CodeCollector.kt:134 | no extension exactly when the name has no '.'; otherwise a '.'-free suffix that follows the last '.' |
| Files.SourceExtensionIffSuffix | src/main/kotlin/don/codecollector/CodeCollector.kt:134 | the "java"/"kt" extension test holds exactly when the name ends in ".java" or ".kt" |
| Files.RelativePath | src/main/kotlin/don/codecollector/CodeCollector.kt:159-165 | without a base path the header shows the file name; under the base it shows the rest of the path after "<base>/"; outside it, the full path |
| Parser.StandardLibraryIffListedPrefix | src/main/kotlin/don/codecollector/parsers/JavaKotlinParser.kt:223-229 | a name is a platform class exactly when it starts with one of the six prefixes, each ending in '.'; "javafx.scene.Node" is not one |
| Parser.ShouldIncludeReference | src/main/kotlin/don/codecollector/parsers/JavaKotlinParser.kt:207-221 | a direct member of the current package is always followed; any other name is followed exactly when it is not a platform class |
| Parser.Classify | src/main/kotlin/don/codecollector/parsers/JavaKotlinParser.kt:108-205 | a usage contributes only with a valid class name and at its own line; a resolved one only through the filter; an unresolved one only as a Kotlin user type guessed into a non-empty current package; a usage resolved to anything but a class, or a Java reference resolved to a Kotlin class, contributes nothing |
| Parser.UnresolvedUsage | src/main/kotlin/don/codecollector/parsers/JavaKotlinParser.kt:164-171 | an unresolved usage contributes exactly when it is a Kotlin user type with a valid name and the package is non-empty, as "<package>.<name>" |
| Parser.ResolvedUsage | src/main/kotlin/don/codecollector/parsers/JavaKotlinParser.kt:116-128 | a usage resolved to a class contributes exactly when the qualified name is non-null and passes the filter (Kotlin classes only for the Kotlin visitors); what it contributes is that name at the usage's line |
| Parser.FallbackPassesFilter | src/main/kotlin/don/codecollector/parsers/JavaKotlinParser.kt:167 | the same-package guess for a simple name would always pass the filter |
| Parser.Contributions | src/main/kotlin/don/codecollector/parsers/JavaKotlinParser.kt:53-69 | an entry is among the contributions exactly when some usage classifies to it |
| Parser.Dedup | src/main/kotlin/don/codecollector/parsers/JavaKotlinParser.kt:50 | the insertion-ordered set has no duplicates and exactly the members of its input; its order is `Parser.DedupFirstInsertionOrder` |
| Parser.DedupFirstInsertionOrder | src/main/kotlin/don/codecollector/parsers/JavaKotlinParser.kt:50 | entries come in the order of their first insertion: an earlier entry was first inserted before a later one |
| Parser.DistinctLinesKeptTwice | src/main/kotlin/don/codecollector/parsers/JavaKotlinParser.kt:20-23 | de-duplication is on the (name, line) pair: one name at two lines is kept twice |
| Parser.CollectReferences | src/main/kotlin/don/codecollector/parsers/JavaKotlinParser.kt:49-72 | the visitor loop with its mutable set yields the de-duplicated contributions: no duplicates, and an entry is present exactly when some usage contributes it |
| Parser.ImportInfos | src/main/kotlin/don/codecollector/parsers/JavaKotlinParser.kt:33-47 | an entry is present exactly when some import statement has that non-null name at that line; order and repetition are `Parser.ImportInfosConcat` and `Parser.ImportInfosSingle` |
| Parser.ImportInfosSingle | src/main/kotlin/don/codecollector/parsers/JavaKotlinParser.kt:33-47 | one statement yields its name at its line when the name is non-null, and nothing otherwise |
| Parser.ImportInfosConcat | src/main/kotlin/don/codecollector/parsers/JavaKotlinParser.kt:33-47 | the entries of two statement lists in a row are the first list's entries followed by the second's, so the statements' order and repeated imports are kept |
| Parser.ParseImports | src/main/kotlin/don/codecollector/parsers/JavaKotlinParser.kt:26-31 | a file that is neither Java nor Kotlin yields no names |
| Parser.ParseImportsContents | src/main/kotlin/don/codecollector/parsers/JavaKotlinParser.kt:26-31 | imports come first and in order, the inferred references after them without duplicates; a name is present exactly when an import or a usage produced it |
| Parser.LineNumber | src/main/kotlin/don/codecollector/parsers/JavaKotlinParser.kt:259-265 | the line number is 0 exactly when the file has no document |
| Parser.LineNumberIsLineOfOffset | src/main/kotlin/don/codecollector/parsers/JavaKotlinParser.kt:259-265 | for text without CR, the line number at an offset is the number of lines of the text before that offset, so the first line is 1 |
| Parser.LineNumberBounds | src/main/kotlin/don/codecollector/parsers/JavaKotlinParser.kt:264 | a document line number lies between 1 and the line count, never decreases as the offset grows, and is 1 at offset 0 |
| Resolver.BuildExclusionNeedsSeveralRoots | src/main/kotlin/don/codecollector/resolvers/JvmResolver.kt:71-78 | with a single non-test source root, a build-directory root does not exclude the file |
| Resolver.BuildDirectoryNeedsBothSlashes | src/main/kotlin/don/codecollector/resolvers/JvmResolver.kt:73-74 | "/p/build/gen" is a build directory and "/p/build" is not: the test needs the slash on both sides |
| Resolver.ResolveInternal | src/main/kotlin/don/codecollector/resolvers/JvmResolver.kt:23-50 | the lookup runs in the context file's module scope, or the whole project when it has no module; the answer is non-null exactly when that lookup finds a class with a file that is eligible, and is then that file; a lookup that throws gives null |
| Resolver.NoProjectScopeRetry | src/main/kotlin/don/codecollector/resolvers/JvmResolver.kt:32-38 | when the context file has a module and the module scope finds no class file, the answer is null: there is no project-scope retry |
| Resolver.Resolve | src/main/kotlin/don/codecollector/resolvers/JvmResolver.kt:14-21 | the name is stored with the returned answer and no other entry changes; a stored non-null answer is returned as is, while a missing or null one is looked up afresh; eligibility of cached answers is preserved |
| Resolver.ResolveWithin | src/main/kotlin/don/codecollector/resolvers/JvmResolver.kt:14-21 | answers, cached or fresh, stay inside a universe that holds every lookup result |
| Resolver.ClearCache | src/main/kotlin/don/codecollector/resolvers/JvmResolver.kt:83-85 | no name is cached after clearing |
| Resolver.ResolveAfterClear | src/main/kotlin/don/codecollector/CodeCollector.kt:31 | after a clear, the first resolve of any name performs a fresh lookup for its own context file |
| Resolver.CachedAnswerIgnoresContext | src/main/kotlin/don/codecollector/resolvers/JvmResolver.kt:19 | once a name resolved to a file, every later resolve of it returns that file whichever file asks, and leaves the cache unchanged |
| Resolver.NullIsRecomputed | src/main/kotlin/don/codecollector/resolvers/JvmResolver.kt:19-21 | a null answer is not memoised: the next resolve of the name looks it up again for the new context file |
| Walks.PathsOf | src/main/kotlin/don/codecollector/CodeCollector.kt:27 | the set of context paths holds exactly the paths of the listed contexts |
| Walks.PathsOfAppend | src/main/kotlin/don/codecollector/CodeCollector.kt:97 | appending one context adds exactly its path |
| Walks.PathsOfConcat | src/main/kotlin/don/codecollector/CodeCollector.kt:45-52 | concatenated lists cover the union of their paths |
| Walks.AppendKeepsDistinct | src/main/kotlin/don/codecollector/CodeCollector.kt:89-97 | a context appended for a path not yet processed keeps paths distinct |
| Collector.EligibilityCompared | src/main/kotlin/don/codecollector/CodeCollector.kt:140-157 | a file passes both the collector's and the resolver's eligibility test exactly when it is in the project and in source, not in generated sources, has a module with a non-test root that contains it, is not claimed by a generated-sources filter, has a source root, and that root is not a build directory of a module with several roots |
| Collector.EligibilityDiffers | src/main/kotlin/don/codecollector/CodeCollector.kt:140-157 | the two tests are not the same: a filter-generated file can pass only the collector's, and a file that no module root contains can pass only the resolver's |
| Collector.ProcessFile | src/main/kotlin/don/codecollector/CodeCollector.kt:83-112 | the state only grows, the cache keeps answers inside the universe, and a supported file always ends up processed, even when its read throws; the import loop inside is `Collector.FollowRefs` |
| Collector.ProcessFileShape | src/main/kotlin/don/codecollector/CodeCollector.kt:89-97 | a processed or unsupported file changes nothing; a supported file whose read throws is only marked processed; otherwise its own context comes next in the list |
| Collector.FollowRefs | src/main/kotlin/don/codecollector/CodeCollector.kt:103-108 | the import loop only grows the state and keeps the cache inside the universe |
| Collector.FollowName | src/main/kotlin/don/codecollector/CodeCollector.kt:104-107 | one pass of the loop only grows the state and leaves the name in the resolver's cache, whether or not it resolved |
| Collector.FollowRefsCaches | src/main/kotlin/don/codecollector/CodeCollector.kt:103-108 | every name parsed from the file has been asked of the resolver after the loop |
| Collector.ProcessFileKeepsValid | src/main/kotlin/don/codecollector/CodeCollector.kt:83-112 | contexts cover processed files only, once each, with their own text and header path; every processed file is supported, and has a context unless its read failed; every cached supported answer has been visited |
| Collector.FollowRefsKeepsValid | src/main/kotlin/don/codecollector/CodeCollector.kt:103-108 | the import loop keeps those invariants |
| Collector.FollowNameKeepsValid | src/main/kotlin/don/codecollector/CodeCollector.kt:104-107 | one pass of the loop keeps them |
| Collector.ProcessFileAsks | src/main/kotlin/don/codecollector/CodeCollector.kt:99-108 | every name parsed from every processed, readable, parsed file ends up asked of the resolver |
| Collector.FollowRefsAsks | src/main/kotlin/don/codecollector/CodeCollector.kt:103-108 | the import loop keeps the names of earlier files asked |
| Collector.FollowNameAsks | src/main/kotlin/don/codecollector/CodeCollector.kt:104-107 | one pass of the loop keeps them asked too |
| Collector.SupportedSeeds | src/main/kotlin/don/codecollector/CodeCollector.kt:33 | the seeds are exactly the supported selected files; their order is `Collector.SupportedSeedsFilter` |
| Collector.SupportedSeedsFilter | src/main/kotlin/don/codecollector/CodeCollector.kt:33 | the seeds are a subsequence of the selection, in its order, and each supported file appears as often as it was selected |
| Collector.ProcessAll | src/main/kotlin/don/codecollector/CodeCollector.kt:33-35 | every supported seed ends up processed |
| Collector.CollectFromFiles | src/main/kotlin/don/codecollector/CodeCollector.kt:23-38 | every supported selected file is processed, and a readable first selection is the first context |
| Collector.CollectFromFilesSound | src/main/kotlin/don/codecollector/CodeCollector.kt:23-38 | the list has no duplicate paths, each context is a supported file's own text, every readable supported selection is listed, every visited file that reads is listed, and the result is closed: each name parsed from a listed file was resolved, a supported answer was visited, and a supported answer that reads is listed |
| Collector.ProcessFileJustified | src/main/kotlin/don/codecollector/CodeCollector.kt:83-112 | every file the walk visits is a seed or the resolver's answer for a name that a visited file imports |
| Collector.FollowRefsJustified | src/main/kotlin/don/codecollector/CodeCollector.kt:103-108 | the import loop keeps every visited file justified that way |
| Collector.FollowNameJustified | src/main/kotlin/don/codecollector/CodeCollector.kt:104-107 | one pass of the loop visits only the answer for a name the current file imports |
| Collector.ProcessAllJustified | src/main/kotlin/don/codecollector/CodeCollector.kt:33-35 | processing seeds drawn from the roots keeps every visited file justified |
| Collector.CollectFromFilesMinimal | src/main/kotlin/don/codecollector/CodeCollector.kt:23-38 | nothing beyond the closure is collected: every listed or visited file is a selected file or the cached answer for a name that a visited file imports |
| Collector.CollectFromFilesIgnoresCache | src/main/kotlin/don/codecollector/CodeCollector.kt:31 | the result does not depend on the cache the call starts with, because it is cleared first |
| Collector.FromSourceRoot | src/main/kotlin/don/codecollector/CodeCollector.kt:57-81 | the contexts are faithful, and their paths, in order, are the supported, readable files among those listed through valid, listable directories in pre-order: child by child, a subdirectory's files in its place |
| Collector.FromChild | src/main/kotlin/don/codecollector/CodeCollector.kt:65-77 | a child contributes, in order, exactly the supported, readable files reached through it |
| Collector.FromFile | src/main/kotlin/don/codecollector/CodeCollector.kt:68-76 | a file child contributes its own context, once, when it is supported and reads, and nothing otherwise |
| Collector.FromChildren | src/main/kotlin/don/codecollector/CodeCollector.kt:65-77 | the loop over children contributes, child by child and in order, exactly the supported, readable files reached among them |
| Collector.JoinContexts | src/main/kotlin/don/codecollector/CodeCollector.kt:41-54 | appending one walk's contexts to another keeps them faithful and unites their paths |
| Collector.CollectAllFiles | src/main/kotlin/don/codecollector/CodeCollector.kt:40-55 | the contexts are faithful, and their paths are, in order, the supported, readable files reached root by root in the order the roots are given |
| CoreCollector.ProcessFile | src/main/kotlin/don/codecollector/core/ContextCollector.kt:54-78 | on success the state only grows and a source file ends up processed; a failure names a file whose read throws and carries a cache that only grew; the import loop inside is `CoreCollector.FollowRefs` |
| CoreCollector.ProcessFileShape | src/main/kotlin/don/codecollector/core/ContextCollector.kt:60-67 | a processed file, or one without a source extension, changes nothing; an unprocessed source file whose read throws fails the call with its path; on success its own context comes next |
| CoreCollector.FollowRefs | src/main/kotlin/don/codecollector/core/ContextCollector.kt:72-77 | the first failure of the loop is passed up and names a file whose read throws; on success the state only grows |
| CoreCollector.FollowName | src/main/kotlin/don/codecollector/core/ContextCollector.kt:73-76 | on success one pass grows the state and leaves the name in the cache; a failure names an unreadable file |
| CoreCollector.FollowRefsCaches | src/main/kotlin/don/codecollector/core/ContextCollector.kt:72-77 | after a successful loop every name parsed from the file is in the cache |
| CoreCollector.ProcessFileKeepsValid | src/main/kotlin/don/codecollector/core/ContextCollector.kt:54-78 | on success the context paths are exactly the processed files, once each, with their own text |
| CoreCollector.FollowRefsKeepsValid | src/main/kotlin/don/codecollector/core/ContextCollector.kt:72-77 | a successful import loop keeps that invariant |
| CoreCollector.FollowNameKeepsValid | src/main/kotlin/don/codecollector/core/ContextCollector.kt:73-76 | a successful pass of the loop keeps it |
| CoreCollector.ProcessFileAgrees | src/main/kotlin/don/codecollector/core/ContextCollector.kt:54-78 | where every source file is official project source and reads, this variant's walk succeeds with exactly the other collector's state |
| CoreCollector.FollowRefsAgrees | src/main/kotlin/don/codecollector/core/ContextCollector.kt:72-77 | the same agreement for the import loop |
| CoreCollector.FollowNameAgrees | src/main/kotlin/don/codecollector/core/ContextCollector.kt:73-76 | the same agreement for one pass of the loop |
| CoreCollector.SupportedSeeds | src/main/kotlin/don/codecollector/core/ContextCollector.kt:30 | the seeds are exactly the selected files with a source extension; their order is `CoreCollector.SupportedSeedsFilter` |
| CoreCollector.SupportedSeedsFilter | src/main/kotlin/don/codecollector/core/ContextCollector.kt:30 | the seeds are a subsequence of the selection, in its order, and each file with a source extension appears as often as it was selected |
| CoreCollector.ProcessAll | src/main/kotlin/don/codecollector/core/ContextCollector.kt:30-32 | on success every seed is processed; a failure names an unreadable file |
| CoreCollector.CollectFromFiles | src/main/kotlin/don/codecollector/core/ContextCollector.kt:23-35 | the incoming cache is kept and only grows; on success every source selection is processed |
| CoreCollector.CollectFromFilesSound | src/main/kotlin/don/codecollector/core/ContextCollector.kt:23-35 | on success the contexts are exactly the processed files, with no duplicates, faithful, and include every source selection |
| CoreCollector.ProcessFileJustified | src/main/kotlin/don/codecollector/core/ContextCollector.kt:54-78 | on success every file the walk visits is a seed or the resolver's answer for a name that a visited file imports |
| CoreCollector.FollowRefsJustified | src/main/kotlin/don/codecollector/core/ContextCollector.kt:72-77 | a successful import loop keeps every visited file justified that way |
| CoreCollector.FollowNameJustified | src/main/kotlin/don/codecollector/core/ContextCollector.kt:73-76 | a successful pass visits only the answer for a name the current file imports |
| CoreCollector.ProcessAllJustified | src/main/kotlin/don/codecollector/core/ContextCollector.kt:30-32 | processing seeds drawn from the roots keeps every visited file justified |
| CoreCollector.CollectFromFilesMinimal | src/main/kotlin/don/codecollector/core/ContextCollector.kt:23-35 | on success nothing beyond the closure is collected: every listed file is a selected file or the cached answer for a name that a listed file imports |
| CoreCollector.ProcessFileCloses | src/main/kotlin/don/codecollector/core/ContextCollector.kt:54-78 | a successful visit follows every name the file imports, so each is cached and its answer, if a source file, is visited |
| CoreCollector.FollowRefsCloses | src/main/kotlin/don/codecollector/core/ContextCollector.kt:72-77 | a successful import loop follows every name from its position on |
| CoreCollector.FollowNameCloses | src/main/kotlin/don/codecollector/core/ContextCollector.kt:73-76 | a successful pass follows its name |
| CoreCollector.ProcessAllCloses | src/main/kotlin/don/codecollector/core/ContextCollector.kt:30-32 | processing the seeds keeps every name imported by a visited file followed |
| CoreCollector.CollectFromFilesClosed | src/main/kotlin/don/codecollector/core/ContextCollector.kt:23-35 | on success the list is closed under imports: each name parsed from a listed file is cached, and a cached answer with a Java or Kotlin extension is listed too |
| CoreCollector.UnreadableSeedFails | src/main/kotlin/don/codecollector/core/ContextCollector.kt:63 | a selected source file whose read throws makes the whole call fail |
| CoreCollector.ReadAll | src/main/kotlin/don/codecollector/core/ContextCollector.kt:45-49 | all files read in order into faithful contexts exactly when every read succeeds; otherwise the failure names an unreadable listed file |
| CoreCollector.CollectAllFiles | src/main/kotlin/don/codecollector/core/ContextCollector.kt:37-52 | the Java files then the Kotlin files, one faithful context each, exactly when all of them read |
| Formatter.TotalLines | src/main/kotlin/don/codecollector/actions/CodeCollectAction.kt:25 | the reported total is at least the number of contexts |
| Formatter.FormatContexts | src/main/kotlin/don/codecollector/CodeCollector.kt:114-128 | the loop with its running line counter produces the blocks of all contexts in order, each with its line range, and nothing for an empty list |
| Formatter.RenderedStep | src/main/kotlin/don/codecollector/CodeCollector.kt:118-125 | one more context appends exactly its block |
| Formatter.LineRanges | src/main/kotlin/don/codecollector/CodeCollector.kt:115-124 | the ranges tile the count: each spans its content's line count, the first starts at 1, each starts after the previous end, and the last ends at the action's reported total |
| Formatter.RenderedPrefix | src/main/kotlin/don/codecollector/CodeCollector.kt:118-125 | the output for a prefix of the list is a prefix of the output |
| Formatter.PieceOfPrefix | src/main/kotlin/don/codecollector/CodeCollector.kt:121-123 | a piece of a prefix sits at its own offset in the whole output |
| Formatter.BlockInOutput | src/main/kotlin/don/codecollector/CodeCollector.kt:121-123 | each context's header, content and newline appear verbatim right after the blocks of the contexts before it |
| Configurable.CurrentPatterns | src/main/kotlin/don/codecollector/settings/CodeCollectorConfigurable.kt:296-306 | one pattern per node, with the node's text and the node's checked state as its enabled flag |
| Configurable.RebuildTree | src/main/kotlin/don/codecollector/settings/CodeCollectorConfigurable.kt:218-227 | one node per pattern, checked exactly when the pattern is enabled |
| Configurable.ResetRoundTrip | src/main/kotlin/don/codecollector/settings/CodeCollectorConfigurable.kt:313-322 | after reset the page shows exactly the stored patterns and is not modified |
| Configurable.ApplyRoundTrip | src/main/kotlin/don/codecollector/settings/CodeCollectorConfigurable.kt:291-311 | after apply the page is not modified, and a reset from what was applied shows the same patterns |
| Configurable.AddPattern | src/main/kotlin/don/codecollector/settings/CodeCollectorConfigurable.kt:229-244 | a cancelled or blank answer changes nothing; otherwise a checked, enabled node with the trimmed text is appended |
| Configurable.AddPatternShows | src/main/kotlin/don/codecollector/settings/CodeCollectorConfigurable.kt:236-240 | after a non-blank add the earlier patterns are unchanged and the new last one is enabled, non-blank and trimmed |
| Configurable.Rename | src/main/kotlin/don/codecollector/settings/CodeCollectorConfigurable.kt:273 | only the selected node's text changes; its flags and all other nodes are kept |
| Configurable.RenameShows | src/main/kotlin/don/codecollector/settings/CodeCollectorConfigurable.kt:273-274 | the shown patterns change in the renamed row's text only |
| Configurable.EditPattern | src/main/kotlin/don/codecollector/settings/CodeCollectorConfigurable.kt:257-278 | no selection, or a cancelled or blank answer, changes nothing; otherwise only the selected node's text changes, to the trimmed answer, with its flags kept |
| Configurable.EditPatternShows | src/main/kotlin/don/codecollector/settings/CodeCollectorConfigurable.kt:272-274 | after a non-blank edit only the selected row's text differs, and it is non-blank and trimmed |
| Configurable.RemovePattern | src/main/kotlin/don/codecollector/settings/CodeCollectorConfigurable.kt:246-255 | with no selection nothing changes; otherwise exactly the selected node is removed |
| Configurable.RemovePatternAt | src/main/kotlin/don/codecollector/settings/CodeCollectorConfigurable.kt:168 | the entry is removed and the others keep their order; the multiset loses exactly that entry |
| Configurable.InsertPatternAt | src/main/kotlin/don/codecollector/settings/CodeCollectorConfigurable.kt:170 | the entry lands at the index and the others keep their order; the multiset gains exactly that entry |
| Configurable.Clamp | src/main/kotlin/don/codecollector/settings/CodeCollectorConfigurable.kt:170 | `coerceIn` keeps a value in range and moves one outside to the nearer bound |
| Configurable.Landing | src/main/kotlin/don/codecollector/settings/CodeCollectorConfigurable.kt:169-170 | the moved entry's index lies inside the list |
| Configurable.Move | src/main/kotlin/don/codecollector/settings/CodeCollectorConfigurable.kt:165-170 | the result is a permutation with the moved entry at its landing index and every other entry in its old relative order |
| Configurable.ImportData | src/main/kotlin/don/codecollector/settings/CodeCollectorConfigurable.kt:146-189 | a drop goes ahead exactly when the source index is in range and the target is neither the source nor just after it; a refused drop leaves the tree as it was; an accepted one moves the entry to the clamped landing index as a permutation, with every other entry in order, and rebuilds nodes whose checked state matches their pattern |
| Configurable.ImportDataMoves | src/main/kotlin/don/codecollector/settings/CodeCollectorConfigurable.kt:157-173 | a drop of an in-range entry, not just before or just after itself, is accepted, keeps the length, and shows the patterns with that entry moved to its landing index |
| Configurable.UndoLands | src/main/kotlin/don/codecollector/settings/CodeCollectorConfigurable.kt:157-170 | dropping the moved entry at its old index, or just after it, is accepted and lands it back at its old index |
| Configurable.MoveBack | src/main/kotlin/don/codecollector/settings/CodeCollectorConfigurable.kt:165-170 | moving an entry back from its landing index restores the list |
| Configurable.ImportDataUndo | src/main/kotlin/don/codecollector/settings/CodeCollectorConfigurable.kt:146-189 | an accepted drop that moved its entry is undone by a second drop, at the old index when the entry moved down and just after it when it moved up |

## Left out

- The IntelliJ platform is not modelled. This covers the project file index, `JavaPsiFacade`, `VirtualFile`, PSI, documents, and the module and root managers. Their answers are the fields of `Project.Host`. The parser receives each file's imports and visited usages as data: it does not walk PSI itself. Which usages a visitor meets is the host's business.
- Byte decoding (`String(bytes)` with the platform charset) is not modelled: a file's text is whatever `Host.content` gives.
- Parser.IsUpperCase: covers ASCII and Latin-1 capitals only. Java's `Character.isUpperCase` also accepts other Unicode upper-case letters, whose table is not reproduced.
- Integer width is not modelled. The formatter's `Int` line counter, the drop index's `sourceIndex + 1`, and the line numbers are unbounded integers. Only inputs with more than two billion lines or children would differ.
- The action classes are left out: clipboard, notifications, dialogs, the enabling of menu items, and how the selected files or source roots are obtained. Only the reported line total (`Formatter.TotalLines`) is modelled from them.
- The Swing side of the settings page is left out: panel layout, rendering, the double-click handler, the transfer handler's `canImport` flavour checks, and the selection and scroll after a drop. `Configurable.ImportData` starts where a drop with an accepted flavour and drop location begins.
- `resetToDefaults` and the default pattern list are left out. The settings state types its list as plain strings, while the page stores `IgnorePattern(pattern, enabled)` objects, so the enabled flag a default pattern would get is not determined by the code. Its rebuild is `Configurable.RebuildTree`.
- Ignore-pattern matching is left out: no code applies the patterns to files.
- Settings persistence (`@State`, XML storage, `loadState`) is left out.
- In `collectAllFiles` of `CodeCollector.kt`, the modules' source roots are given as one list of directory trees, in module order. Nothing removes a file reached from two overlapping roots twice, and the model does not either.
- An exception thrown by `getRelativePath`, by `parseImports`, or while iterating a directory's children after the listing succeeded is not modelled. Only a failed read is, and an unlistable directory counts as having no children.
- `CoreCollector.CollectAllFiles` assumes the two `FileTypeIndex` queries return the lists it is given; the index itself is host behaviour.
