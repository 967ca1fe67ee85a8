# MachObfuscator core, modelled in Dafny

MachObfuscator obfuscates the Objective-C symbols of a Mach-O application. Before it rewrites
anything it works out three things. This project models those three steps and proves properties
of them.

1. **Which images belong to the run.** Starting from one executable, or from every executable
   in a directory, it walks the dependency graph with a stack. It sorts each image into the
   obfuscable images or the unobfuscable dependencies by the obfuscable-files filter. It
   resolves each image's dylib entries and the framework paths found among its C strings, and
   records the result per image. Finally it collects the system frameworks of the obfuscable
   images.
2. **Which symbols may be renamed.** From the symbols of those images it builds a whitelist, a
   blacklist and a removed list of selectors and classes, plus the export tries of each
   obfuscable image, keyed by CPU id. Both variants of `buildFor` are modelled: the
   application's, which loads its skip lists itself, and the older one, which receives them.
3. **What the command line asks for.** `Options.init` runs the getopt loop, pairs
   `--replace-cstring` with `--replace-cstring-with`, builds the obfuscable-files filter and
   reads the application path.

The model also covers the type attribute of an Objective-C property (`typeAttribute`).

Layout:

- `Wrappers.dfy`: `Option`, `Result` (whose `Fatal` case stands for `fatalError`) and `Outcome`.
- `Strings.dfy`: Swift's `split(separator:)`, path components, UTF-8 length and ASCII lower-casing.
- `Dictionaries.dfy`: `Dictionary(_:uniquingKeysWith:)`. It comes in two forms: one that traps on
  disagreeing duplicates, and one that traps on any duplicate.
- `Filters.dfy`: `ObfuscableFilesFilter` as an expression tree.
- `DylibResolving.dfy`: `asLibraryPath`, `RpathsAccumulator` and `resolvedDylibLocations`.
- `PathsBuilding.dfy`: the `ObfuscationPaths` class and its traversal.
- `Classification.dfy`: the classification shared by both `buildFor` variants.
- `SymbolsBuilding.dfy` and `LegacySymbolsBuilding.dfy`: the two `buildFor` variants.
- `BuildingFixture.dfy`: the fixture of the `buildFor` unit tests, with each test's expectation
  proved.
- `ObjcSymbols.dfy`: `attributeValues` and `typeAttribute`.
- `OptionsParsing.dfy`: the option loop.
- `OptionTables.dfy`: the short and long option tables getopt is given.

How collaborators are modelled:

- Code outside the core is represented by function values in environment records. This covers:
  - the dependency-node loader;
  - `RpathsAccumulator.resolve`;
  - the file repository;
  - the symbol loaders;
  - regular-expression matching;
  - `capitalizedOnFirstLetter`;
  - `Mach.libobjcSelectors`;
  - the mangler keys.
- A file URL is an abstract `Location`, compared only for equality.
- `getopt_long` is represented by the sequence of (code, argument) events it returns.
- `OptionTables` models which codes those events can carry.

The traversal is imperative, as in the source. `ObfuscationPaths` is a class whose sets and map
are fields. `addExecutable` is a `while` loop over a stack. `RpathsAccumulator` is a class whose
entry list grows. The option loop is a method whose loop is proved equal to a fold of `Step`
over the events.

What a traversal classifies is bounded from both sides. Every root and, with dependencies,
every target of a recorded image is classified. Every newly classified image is a root or a
target of some recorded image, so a traversal does not classify an arbitrary file.

When a traversal aborts is stated exactly for one iteration. It aborts exactly when the visit of
the popped image is fatal: the resolution aborts, or a revisit resolves differently from the
recorded map. On failure the maps are unchanged. A whole traversal that aborts names a file of
the universe whose visit, under the rpaths gathered by then, yields that very error. If every
recorded map is the resolution of its image under some rpath context (`EachMapResolved`, true of
fresh paths), the error is also `Justified` by the environment alone: some file's resolution
aborts with that cause, or the file resolves to two different maps under two rpath contexts.

The converse is stated for two conditions. An environment is `Unambiguous` when no resolution
aborts and none depends on the rpaths gathered so far. An image whose nodes cannot be loaded
resolves to the empty map, so it never aborts the run. `Faithful` adds that every recorded map is
its image's resolution. Under these conditions no traversal aborts, and an `Unambiguous`
environment justifies no abort. Likewise, a successful parse saw only accepted events and
complete, fitting C-string pairs, and every such command line parses.

## Model

| member | source | states |
|---|---|---|
| Strings.Split | MachObfuscator/Options/Options.swift:10 | `split(separator:)`: every piece is non-empty and free of the separator |
| Strings.SplitJoin | MachObfuscator/Options/Options.swift:10 | splitting the join of non-empty, separator-free pieces gives the pieces back |
| Strings.SplitKeepsCharacters | Sources/App/Mach/ObjC/ObjcSymbols.swift:22-24 | the pieces, concatenated, are the input with every separator removed (nothing else is lost) |
| Strings.LastComponent | Sources/App/DependencyAnalysis/FileRepository+DylibLocationResolving.swift:79 | `components(separatedBy: "/").last`: a slash-free suffix of the path that is either the whole path or preceded by a slash |
| Strings.Utf8Length | MachObfuscator/Options/Options.swift:216 | `utf8.count`: between one and four bytes per Unicode scalar |
| Strings.Utf8LengthAppend | MachObfuscator/Options/Options.swift:216 | the UTF-8 length of a concatenation is the sum of the lengths |
| Strings.LowercasedAscii | Sources/App/DependencyAnalysis/ObfuscationPaths+Building.swift:42 | `lowercased()` on a path extension, for ASCII letters: same length, each character lower-cased |
| Dictionaries.MergeAgreeing | Sources/App/DependencyAnalysis/FileRepository+DylibLocationResolving.swift:59-65 | the dictionary exists exactly when no key is paired with two different values, and it then holds exactly the given pairs |
| Dictionaries.UniqueKeys | Sources/App/SymbolsCollecting/ObfuscationSymbols+Building.swift:98-100 | the dictionary exists exactly when no key repeats, and it then holds exactly the given pairs |
| Classification.Flatten | Sources/App/SymbolsCollecting/ObfuscationSymbols+Building.swift:11-15 | `flatten()` of symbol sets: a name is in the result exactly when it is in one of the parts |
| Classification.AsCpuId | Sources/App/SymbolsCollecting/ObfuscationSymbols+Building.swift:99 | the CPU id holds the CPU type in its high 32 bits and the subtype in its low 32 bits |
| Classification.AsCpuIdInjective | Sources/App/SymbolsCollecting/ObfuscationSymbols+Building.swift:98-100 | two architectures with the same CPU id are the same architecture, so a duplicated CPU id means a duplicated architecture |
| Classification.AsSetter | Sources/App/SymbolsCollecting/ObfuscationSymbols+Building.swift:130-135 | the empty name stays empty; any other name becomes `set` + capitalized name + `:` |
| Classification.SettersFollowCapitalization | Sources/App/SymbolsCollecting/ObfuscationSymbols+Building.swift:130-135 | two names whose capitalizations differ get different setters |
| Classification.Collect | Sources/App/SymbolsCollecting/ObfuscationSymbols+Building.swift:29-43 | `flatMap { ... }.uniq` over slices: a name is collected exactly when some slice has it in that part |
| Classification.UserSources | Sources/App/SymbolsCollecting/ObfuscationSymbols+Building.swift:22 | the user slices are exactly the slices of some obfuscable image |
| Classification.Matching | Sources/App/SymbolsCollecting/ObfuscationSymbols+Building.swift:64 | `matching(regexes:)`: the names that some regular expression matches, and only names from the input |
| Classification.BlacklistGetters | Sources/App/SymbolsCollecting/ObfuscationSymbols+Building.swift:55-61 | a name is a blacklisted getter exactly when it is one of: a header selector; a selector or C string of an unobfuscable dependency; a dynamic property or C string of a user slice; a skipped selector |
| Classification.BlacklistSetters | Sources/App/SymbolsCollecting/ObfuscationSymbols+Building.swift:62 | every getter's setter is in the result, and everything in the result is some getter's setter |
| Classification.BlacklistSelectors | Sources/App/SymbolsCollecting/ObfuscationSymbols+Building.swift:64-74 | membership in the selector blacklist, case by case: getters, their setters, libobjc selectors, the literal blacklist, and user selectors matched by a regular expression |
| Classification.BlacklistClasses | Sources/App/SymbolsCollecting/ObfuscationSymbols+Building.swift:77-90 | membership in the class blacklist, case by case: header classes, system classes and C strings, user C strings, skipped classes, the literal blacklist, and user classes matched by a regular expression |
| Classification.TriePairs | Sources/App/SymbolsCollecting/ObfuscationSymbols+Building.swift:98-99 | the (CPU id, trie) pairs are exactly those of the slices that carry a trie, at most one per slice |
| Classification.ExportTries | Sources/App/SymbolsCollecting/ObfuscationSymbols+Building.swift:95-101 | succeeds exactly when no image has two trie-carrying slices with one CPU id; otherwise it stops with `DuplicatedCpuId`; on success it has one map per obfuscable image holding exactly its trie pairs |
| Classification.SplitIsPartition | Sources/App/SymbolsCollecting/ObfuscationSymbols+Building.swift:92-105 | whitelist and removed list partition the user symbols; the whitelist avoids the blacklist; the removed list lies inside it |
| Classification.Classify | Sources/App/SymbolsCollecting/ObfuscationSymbols+Building.swift:55-111 | fails only on a duplicated CPU id; the blacklist is the two blacklists above; whitelist = user − blacklist and removed = user ∩ blacklist |
| Classification.WhitelistAndRemovedPartitionUserSymbols | Sources/App/SymbolsCollecting/ObfuscationSymbols+Building.swift:92-105 | the classification's whitelist and removed list partition the user selectors and classes, and the whitelist shares nothing with the blacklist |
| Classification.WhitelistIsUserMinusBlacklist | Sources/App/SymbolsCollecting/ObfuscationSymbols+Building.swift:92-93 | the whitelist is exactly the user symbols less the blacklist |
| Classification.SettersOfGettersBlacklisted | Sources/App/SymbolsCollecting/ObfuscationSymbols+Building.swift:55-74 | a blacklisted getter and its `setX:` setter are both blacklisted selectors |
| Classification.LiteralBlacklistsNeverFail | Sources/App/SymbolsCollecting/ObfuscationSymbols+Building.swift:70-90 | command-line blacklists never decide whether classification fails, and every literal entry ends up blacklisted, even one no image has |
| Classification.BlacklistCoversSystemSelectors | Sources/App/SymbolsCollecting/ObfuscationSymbols+Building.swift:55-74 | header, skipped and system selectors and system C strings are all blacklisted selectors |
| Classification.BlacklistCoversSystemClasses | Sources/App/SymbolsCollecting/ObfuscationSymbols+Building.swift:83-90 | header, skipped and system classes and system C strings are all blacklisted classes |
| Classification.LoadUserSources | Sources/App/SymbolsCollecting/ObfuscationSymbols+Building.swift:21 | succeeds exactly when every obfuscable image loads (`try!` otherwise); then it maps each image to its slices |
| Classification.LoadSystemSources | Sources/App/SymbolsCollecting/ObfuscationSymbols+Building.swift:18 | succeeds exactly when every dependency loads; then it holds exactly the slices of the dependencies |
| Classification.HeaderSymbols | Sources/App/SymbolsCollecting/ObfuscationSymbols+Building.swift:47-50 | the header symbols are exactly those some system framework's headers declare |
| Classification.OffsetPairs | Sources/App/SymbolsCollecting/ObfuscationSymbols+Building.swift:119 | one (offset, Mach-O) pair per architecture, in order |
| Classification.MachPerOffset | Sources/App/SymbolsCollecting/ObfuscationSymbols+Building.swift:116-126 | a thin image maps offset 0 to its Mach-O; a fat image succeeds exactly when all offsets differ, and then maps each offset to its architecture and nothing else |
| SymbolsBuilding.SkippedSymbols | Sources/App/SymbolsCollecting/ObfuscationSymbols+Building.swift:11-15 | a name is skipped exactly when some skip directory or skip list yields it |
| SymbolsBuilding.FlattenLoaded | Sources/App/SymbolsCollecting/ObfuscationSymbols+Building.swift:13-15 | flattening the loaded symbol sets yields exactly the names some URL's load yields |
| SymbolsBuilding.LoadEach | Sources/App/SymbolsCollecting/ObfuscationSymbols+Building.swift:13-14 | `map(load)`: one result per URL, in order |
| SymbolsBuilding.FlattenConcat | Sources/App/SymbolsCollecting/ObfuscationSymbols+Building.swift:12-15 | flattening a concatenation is the union of the two flattenings |
| SymbolsBuilding.BuildFor | Sources/App/SymbolsCollecting/ObfuscationSymbols+Building.swift:4-112 | aborts exactly when some image fails to load, or an obfuscable image duplicates a CPU id; otherwise it is the classification of what was loaded |
| SymbolsBuilding.SkippedSymbolsBlacklisted | Sources/App/SymbolsCollecting/ObfuscationSymbols+Building.swift:11-90 | every symbol from skip directories, skip lists, system framework headers and unobfuscable dependencies ends up blacklisted |
| LegacySymbolsBuilding.BuildFor | MachObfuscator/SymbolsCollecting/ObfuscationSymbols+Building.swift:4-81 | the same abort conditions; otherwise the classification with force-loaded headers and the given skip list |
| LegacySymbolsBuilding.AgreesWithApplication | MachObfuscator/SymbolsCollecting/ObfuscationSymbols+Building.swift:4-81 | given the skip list the newer variant builds, and the directory loader as header loader, the two variants return the same result |
| BuildingFixture.SampleTriePairs | MachObfuscatorTests/SymbolsCollectingTests/ObfuscationSymbols+Building_buildForObfuscationPaths_Tests.swift:12-58 | the fixture's images carry the CPU ids 0x17_0000_0042 and 0x17_0000_0043, with distinct keys |
| BuildingFixture.SampleSystemSources | MachObfuscatorTests/SymbolsCollectingTests/ObfuscationSymbols+Building_buildForObfuscationPaths_Tests.swift:12-58 | the fixture's dependencies load to the slices x1 and x2 |
| BuildingFixture.SampleHeaders | MachObfuscatorTests/SymbolsCollectingTests/ObfuscationSymbols+Building_buildForObfuscationPaths_Tests.swift:12-58 | the fixture's framework headers declare sys1s, sys2s, sys1c and sys2c |
| BuildingFixture.SampleBuildsFromLoaded | MachObfuscatorTests/SymbolsCollectingTests/ObfuscationSymbols+Building_buildForObfuscationPaths_Tests.swift:63-69 | `buildSUT` is the classification of the fixture's loaded symbols |
| BuildingFixture.SampleClassifiesAsExpected | MachObfuscatorTests/SymbolsCollectingTests/ObfuscationSymbols+Building_buildForObfuscationPaths_Tests.swift:71-159 | for any options, the fixture classifies to the whitelist, blacklist, removed list and tries the tests expect, written out in full |
| BuildingFixture.SampleBuildsAsExpected | MachObfuscatorTests/SymbolsCollectingTests/ObfuscationSymbols+Building_buildForObfuscationPaths_Tests.swift:63-69 | `buildFor` on the fixture returns that expected result |
| BuildingFixture.DefaultWhitelist | MachObfuscatorTests/SymbolsCollectingTests/ObfuscationSymbols+Building_buildForObfuscationPaths_Tests.swift:71-79 | with no options the whitelist is selectors {s1, s3, s7} and classes {c1, c3, c7} |
| BuildingFixture.DefaultBlacklist | MachObfuscatorTests/SymbolsCollectingTests/ObfuscationSymbols+Building_buildForObfuscationPaths_Tests.swift:121-146 | with no options the blacklist is the union the two blacklist tests list, plus the libobjc selectors |
| BuildingFixture.BlacklistSelectorsOfSample | MachObfuscatorTests/SymbolsCollectingTests/ObfuscationSymbols+Building_buildForObfuscationPaths_Tests.swift:121-134 | the fixture's blacklisted selectors are the dynamic-property, dependency, C-string, header and skipped accessors with their setters, plus libobjc and command-line entries |
| BuildingFixture.BlacklistClassesOfSample | MachObfuscatorTests/SymbolsCollectingTests/ObfuscationSymbols+Building_buildForObfuscationPaths_Tests.swift:136-146 | the fixture's blacklisted classes are the dependency, C-string, header and skipped classes, plus command-line entries |
| BuildingFixture.ClassBlacklistDropsC3 | MachObfuscatorTests/SymbolsCollectingTests/ObfuscationSymbols+Building_buildForObfuscationPaths_Tests.swift:81-87 | blacklisting `c3` and a missing class leaves the class whitelist {c1, c7} |
| BuildingFixture.ClassRegexKeepsC3 | MachObfuscatorTests/SymbolsCollectingTests/ObfuscationSymbols+Building_buildForObfuscationPaths_Tests.swift:89-98 | the class regexes `^c[17]$` and `notexisting` leave the class whitelist {c3} and blacklist c1 and c7 |
| BuildingFixture.SelectorBlacklistDropsS3 | MachObfuscatorTests/SymbolsCollectingTests/ObfuscationSymbols+Building_buildForObfuscationPaths_Tests.swift:100-106 | blacklisting `s3` and a missing selector leaves the selector whitelist {s1, s7} |
| BuildingFixture.SelectorRegexKeepsS3 | MachObfuscatorTests/SymbolsCollectingTests/ObfuscationSymbols+Building_buildForObfuscationPaths_Tests.swift:108-118 | the selector regexes `^s[17]$` and `notexisting` leave the selector whitelist {s3} and blacklist s1 and s7 |
| BuildingFixture.SampleTries | MachObfuscatorTests/SymbolsCollectingTests/ObfuscationSymbols+Building_buildForObfuscationPaths_Tests.swift:148-159 | /tmp/ob1 has two tries (ob1t1, ob1t2) and /tmp/ob2 has one (ob2), under the expected CPU ids |
| BuildingFixture.EmptyOptionsAddNothing | MachObfuscatorTests/SymbolsCollectingTests/ObfuscationSymbols+Building_buildForObfuscationPaths_Tests.swift:63-69 | empty command-line blacklists add no name to either blacklist |
| ObjcSymbols.Leading | Sources/App/Mach/ObjC/ObjcSymbols.swift:23 | counts exactly the separators at the head of the string |
| ObjcSymbols.AttributeValues | Sources/App/Mach/ObjC/ObjcSymbols.swift:22-24 | the values are non-empty and comma-free, and together they are the attribute string without its commas |
| ObjcSymbols.TypeAttribute | Sources/App/Mach/ObjC/ObjcSymbols.swift:30-35 | succeeds exactly when the first non-comma character is `T`; then the value is the run of non-commas from there; otherwise the run stops, naming the property |
| ObjcSymbols.TypeAttributeOfWritten | Sources/App/Mach/ObjC/ObjcSymbols.swift:30-35 | writing values out comma-separated, the first starting with `T`, reads the first back as the type attribute |
| ObjcSymbols.MissingTypeAttribute | Sources/App/Mach/ObjC/ObjcSymbols.swift:30-35 | attribute strings with no values, or a first value not starting with `T`, stop the run |
| DylibResolving.AsLibraryPath | Sources/App/DependencyAnalysis/FileRepository+DylibLocationResolving.swift:74-85 | defined exactly for absolute paths whose last component ends in `.framework`; the result is the path, a slash and a name which, suffixed with `.framework`, gives that last component |
| DylibResolving.FrameworkBundleRewrite | Sources/App/DependencyAnalysis/FileRepository+DylibLocationResolving.swift:74-85 | `dir/Name.framework` becomes `dir/Name.framework/Name` |
| DylibResolving.BinaryInsideFramework | Sources/App/DependencyAnalysis/FileRepository+DylibLocationResolving.swift:83-84 | the binary path lies inside the bundle and carries the bundle's name without the suffix |
| DylibResolving.LastComponentAfterSlash | Sources/App/DependencyAnalysis/FileRepository+DylibLocationResolving.swift:79 | the last component of `prefix/name` is `name` when `name` has no slash |
| DylibResolving.EntriesFor | Sources/App/DependencyAnalysis/FileRepository+DylibLocationResolving.swift:14 | one rpath entry per rpath, in order, each with the loader path and platform |
| DylibResolving.RpathsAccumulator.constructor | Sources/App/DependencyAnalysis/ObfuscationPaths+Building.swift:53-54 | the accumulator starts with the executable's directory and no rpaths |
| DylibResolving.RpathsAccumulator.Add | Sources/App/DependencyAnalysis/FileRepository+DylibLocationResolving.swift:14 | the entry list grows by exactly the entries of the given rpaths |
| DylibResolving.AddRpathsOfNodes | Sources/App/DependencyAnalysis/FileRepository+DylibLocationResolving.swift:13-15 | after the loop the accumulator holds its old entries followed by every node's rpath entries, in node order |
| DylibResolving.ResolvedPairs | Sources/App/DependencyAnalysis/FileRepository+DylibLocationResolving.swift:17-28 | a (dylib, location) pair is kept exactly when the dylib is an entry and resolves to that location |
| DylibResolving.ResolvedCstringPairs | Sources/App/DependencyAnalysis/FileRepository+DylibLocationResolving.swift:39-52 | a pair is kept exactly when some C string is a framework path whose library path resolves to that location |
| DylibResolving.DylibPairs | Sources/App/DependencyAnalysis/FileRepository+DylibLocationResolving.swift:17-28 | over all nodes, the pairs are exactly the dylib entries of some node with their resolution |
| DylibResolving.CstringPairs | Sources/App/DependencyAnalysis/FileRepository+DylibLocationResolving.swift:39-52 | over all nodes, the pairs are exactly the framework C strings of some node with their resolution |
| DylibResolving.ResolvedDylibLocations | Sources/App/DependencyAnalysis/FileRepository+DylibLocationResolving.swift:4-70 | an image that does not load gives an empty map and adds no rpaths; otherwise every node's rpaths are added first, and then the map is built from both kinds of pairs |
| DylibResolving.ResolvedMapContents | Sources/App/DependencyAnalysis/FileRepository+DylibLocationResolving.swift:59-65 | the map sends an entry to a location exactly when a dylib entry or a framework C string resolves that way |
| DylibResolving.AmbiguityIsFatal | Sources/App/DependencyAnalysis/FileRepository+DylibLocationResolving.swift:59-65 | an entry resolving to two different locations stops the run |
| DylibResolving.ResolutionExists | Sources/App/DependencyAnalysis/FileRepository+DylibLocationResolving.swift:4-70 | every resolved location is an existing file |
| DylibResolving.ResolvedLocationsExist | Sources/App/DependencyAnalysis/FileRepository+DylibLocationResolving.swift:59-65 | every location in a loaded image's map is an existing file |
| PathsBuilding.SystemFrameworksOf | Sources/App/DependencyAnalysis/ObfuscationPaths+Building.swift:104-112 | a location is a system framework exactly when some obfuscable image's dylib entry resolves to it as a system framework |
| PathsBuilding.Executables | Sources/App/DependencyAnalysis/ObfuscationPaths+Building.swift:38 | the listed files that are Mach-O executables, and only those |
| PathsBuilding.ExecutablesAmong | Sources/App/DependencyAnalysis/ObfuscationPaths+Building.swift:38 | the same files, as a set |
| PathsBuilding.NibsAmong | Sources/App/DependencyAnalysis/ObfuscationPaths+Building.swift:42 | the listed files whose extension, lower-cased, is `nib` |
| PathsBuilding.Listing | Sources/App/DependencyAnalysis/ObfuscationPaths+Building.swift:88-94 | a set of dependencies listed in some order: each element once, and nothing else |
| PathsBuilding.VisitOutcome | Sources/App/DependencyAnalysis/ObfuscationPaths+Building.swift:74-85 | an aborted resolution aborts the visit; a revisit that resolves differently stops with `DifferentResolution`; otherwise the visit yields the resolved map |
| PathsBuilding.StepKeepsPendingCovered | Sources/App/DependencyAnalysis/ObfuscationPaths+Building.swift:87-95 | after a pop and push, every dependency of a classified image is classified or still on the stack |
| PathsBuilding.SortingOneMore | Sources/App/DependencyAnalysis/ObfuscationPaths+Building.swift:65-71 | classifying one more image keeps every image on the side its filter verdict says |
| PathsBuilding.TraversalStarts | Sources/App/DependencyAnalysis/ObfuscationPaths+Building.swift:53-55 | the stack holding only the executable satisfies the traversal invariant |
| PathsBuilding.StepKeepsTraversal | Sources/App/DependencyAnalysis/ObfuscationPaths+Building.swift:57-97 | one iteration of the loop keeps the traversal invariant |
| PathsBuilding.StepKeepsSorting | Sources/App/DependencyAnalysis/ObfuscationPaths+Building.swift:65-85 | one iteration classifies exactly the popped image, keeps every image sorted by the filter, and never changes an image's recorded map |
| PathsBuilding.StepProgresses | Sources/App/DependencyAnalysis/ObfuscationPaths+Building.swift:57-97 | each iteration either classifies a new file, or pops an already classified entry without pushing a classified entry |
| PathsBuilding.PopThenPush | Sources/App/DependencyAnalysis/ObfuscationPaths+Building.swift:87-95 | the new stack is the old one without its top, plus exactly the top's unclassified dependencies (only with dependencies on) |
| PathsBuilding.GrewTwice | Sources/App/DependencyAnalysis/ObfuscationPaths+Building.swift:39-41 | adding two executables one after the other grows the paths as adding both at once would |
| PathsBuilding.TraversalEnds | Sources/App/DependencyAnalysis/ObfuscationPaths+Building.swift:57-97 | with the stack empty, the executable and everything reachable from it is classified, sorted by the filter and resolved, and every newly classified image is the executable or a target of a recorded image |
| PathsBuilding.ObfuscationPaths.constructor | Sources/App/DependencyAnalysis/ObfuscationPaths+Building.swift:5 | `ObfuscationPaths()` starts with no images, no maps, no frameworks and no nibs |
| PathsBuilding.ObfuscationPaths.Visit | Sources/App/DependencyAnalysis/ObfuscationPaths+Building.swift:65-85 | the image joins the side its filter verdict names; the image's rpaths are added; the outcome is `VisitOutcome` of the resolution; on success the map is recorded and images stay sorted |
| PathsBuilding.ObfuscationPaths.Step | Sources/App/DependencyAnalysis/ObfuscationPaths+Building.swift:57-95 | one iteration aborts exactly when `VisitOutcome` of the top image's resolution is fatal, with that error (`UnresolvableDylibs` or `DifferentResolution`), and then leaves the maps unchanged; otherwise it records the resolved map, keeps the traversal invariant, pops the top and pushes its unclassified dependencies, and makes progress; an abort is `Justified` when every recorded map was resolved; under `Faithful` it never aborts and keeps the maps faithful |
| PathsBuilding.UnambiguousVisit | Sources/App/DependencyAnalysis/ObfuscationPaths+Building.swift:74-85 | when no resolution aborts or depends on the gathered rpaths and every recorded map is its image's resolution, a visit never aborts and recording its map keeps that so |
| PathsBuilding.ResolvedVisit | Sources/App/DependencyAnalysis/ObfuscationPaths+Building.swift:74-85 | when every recorded map is its image's resolution under some rpath context, a fatal visit of a file is `Justified` by the environment, and a successful one keeps every recorded map resolved |
| PathsBuilding.UnambiguousJustifiesNothing | Sources/App/DependencyAnalysis/FileRepository+DylibLocationResolving.swift:4-70 | in an environment where no resolution aborts or depends on the rpaths, no `UnresolvableDylibs` or `DifferentResolution` abort is `Justified` |
| PathsBuilding.StepKeepsTargeted | Sources/App/DependencyAnalysis/ObfuscationPaths+Building.swift:87-95 | after a pop and push, every stacked or newly classified image is still the executable or a target of a recorded image |
| PathsBuilding.ObfuscationPaths.Traverse | Sources/App/DependencyAnalysis/ObfuscationPaths+Building.swift:57-97 | the loop ends with an empty stack and the traversal invariant holding (so it classified only the executable and targets of recorded images), frameworks and nibs untouched; an abort is `UnresolvableDylibs` or `DifferentResolution` and is what visiting some file yields under the final rpaths and maps, `Justified` when every recorded map was resolved; never aborts when started `Faithful` |
| PathsBuilding.ObfuscationPaths.AddExecutable | Sources/App/DependencyAnalysis/ObfuscationPaths+Building.swift:45-115 | the executable and its dependency closure are classified by the filter and resolved, and nothing else is newly classified except targets of recorded images; earlier maps are kept; the system frameworks are recomputed from the obfuscable images; the nibs are untouched; an abort is `UnresolvableDylibs` or `DifferentResolution`, is what visiting some file yields under some rpath context and the final maps, and is `Justified` when every recorded map was resolved; never aborts when started `Faithful` |
| PathsBuilding.ObfuscationPaths.AddAllExecutables | Sources/App/DependencyAnalysis/ObfuscationPaths+Building.swift:36-43 | every listed executable's closure is added, and nothing else is newly classified except targets of recorded images; the system frameworks are recomputed when there was an executable; the nibs grow by the listed `.nib` files; aborts as `AddExecutable` does, and never when started `Faithful` |
| PathsBuilding.ObfuscationPaths.AddEach | Sources/App/DependencyAnalysis/ObfuscationPaths+Building.swift:39-41 | the executables are added one after the other: all of their closures are classified, and nothing else is newly classified except targets of recorded images; the nibs are untouched; aborts as `AddExecutable` does |
| PathsBuilding.ForExecutable | Sources/App/DependencyAnalysis/ObfuscationPaths+Building.swift:14-34 | the run stops with `NotMachOFile` exactly when the file is not Mach-O; every abort is `Justified` by the environment; a Mach-O file that is not executable goes on, and under `Unambiguous` always succeeds; on success fresh paths hold the file's closure, and otherwise only targets of recorded images, under the filter narrowed to that one file |
| PathsBuilding.OnlyFileNarrows | Sources/App/DependencyAnalysis/ObfuscationPaths+Building.swift:31 | under `only(file:)`, at most that file is obfuscable, and it is obfuscable exactly when the caller's filter says so |
| PathsBuilding.ForAllExecutables | Sources/App/DependencyAnalysis/ObfuscationPaths+Building.swift:4-12 | fresh paths hold the closure of every executable in the directory, and otherwise only targets of recorded images, under the filter narrowed to that directory, with the system frameworks of the obfuscable images (none without an executable) and the listed nibs; every abort is `UnresolvableDylibs` or `DifferentResolution` and `Justified` by the environment; under `Unambiguous` it always succeeds |
| OptionsParsing.EraseSection | MachObfuscator/Options/Options.swift:9-15 | succeeds exactly when the definition splits into two pieces; these are non-empty, comma-free, segment first; otherwise the run stops |
| OptionsParsing.EraseSectionRoundTrip | MachObfuscator/Options/Options.swift:9-15 | `SEGMENT,SECTION` written from a configuration reads back as that configuration |
| OptionsParsing.Switch | MachObfuscator/Options/Options.swift:163-182 | a switch never touches the C-string replacements |
| OptionsParsing.Record | MachObfuscator/Options/Options.swift:183-204 | recording an argument never touches the C-string replacements |
| OptionsParsing.Recorded | MachObfuscator/Options/Options.swift:177-233 | recording changes only the mangler, the Objective-C blacklists, the erased sections, the file-name prefixes, the skip lists and the symbols to find |
| OptionsParsing.Step | MachObfuscator/Options/Options.swift:162-251 | a code the `switch` has no case for stops the run with `Unexpected argument` |
| OptionsParsing.ParseOptions | MachObfuscator/Options/Options.swift:79-274 | the loop over getopt's events, then the pending check, filter and application path, equals the fold of `Step` that `Parse` defines |
| OptionsParsing.Args | MachObfuscator/Options/Options.swift:222-225 | the arguments given to an option are exactly those of its events |
| OptionsParsing.LastArg | MachObfuscator/Options/Options.swift:177-178 | there is a last argument exactly when the option occurs |
| OptionsParsing.RunPairsAlternate | MachObfuscator/Options/Options.swift:205-221 | the C-string events of a run that did not stop alternate `--replace-cstring` and `--replace-cstring-with` |
| OptionsParsing.RunPairsParity | MachObfuscator/Options/Options.swift:205-221 | a C string is pending after a run exactly when an odd number of C-string events was seen |
| OptionsParsing.RunPairsCstrings | MachObfuscator/Options/Options.swift:219 | the replacements are the pairs folded into the map in order, a later pair overriding an earlier one |
| OptionsParsing.RunPairsFit | MachObfuscator/Options/Options.swift:216-218 | in every pair the replacement is no longer in UTF-8 than the C string |
| OptionsParsing.CstringsComeInPairs | MachObfuscator/Options/Options.swift:205-256 | a successful parse saw alternating, complete, fitting pairs, and the replacements map is their fold |
| OptionsParsing.UnpairedCstringIsFatal | MachObfuscator/Options/Options.swift:254-256 | an odd number of C-string events always stops the run |
| OptionsParsing.StepKeepsFitting | MachObfuscator/Options/Options.swift:216-219 | no pass of the loop stores a replacement longer than its C string |
| OptionsParsing.RunKeepsReplacementsShort | MachObfuscator/Options/Options.swift:161-252 | the loop keeps every replacement no longer than its C string |
| OptionsParsing.ReplacementsNeverLonger | MachObfuscator/Options/Options.swift:216-219 | after a successful parse, no replacement is longer in UTF-8 than the C string it replaces |
| OptionsParsing.SwitchSwitches | MachObfuscator/Options/Options.swift:163-182 | a switch sets its own flag, and only its own flag |
| OptionsParsing.StepSwitchesOnce | MachObfuscator/Options/Options.swift:162-251 | any pass of the loop changes the flags only as its own code asks |
| OptionsParsing.RunSwitches | MachObfuscator/Options/Options.swift:161-252 | after the loop, each flag is its start value combined with whether its option occurred |
| OptionsParsing.SwitchesFollowOptions | MachObfuscator/Options/Options.swift:35-62 | each flag of a parse is its default unless its option occurred: quiet, verbose, debug, help, dry-run, methtype, doom, reflection, dump and unknown turn on; symtab and dependency analysis turn off; report goes to the console |
| OptionsParsing.RunLists | MachObfuscator/Options/Options.swift:161-252 | the loop appends to each list field exactly the pieces its events give, in order |
| OptionsParsing.ListFollowsOptions | MachObfuscator/Options/Options.swift:183-245 | each list option yields its arguments (split at commas where the source splits) in command-line order |
| OptionsParsing.RunSections | MachObfuscator/Options/Options.swift:201-202 | the loop appends one configuration per `--erase-section`, in order |
| OptionsParsing.SectionsFollowOptions | MachObfuscator/Options/Options.swift:201-202 | a parse's erased sections are those of its `--erase-section` options, in order |
| OptionsParsing.RunMangler | MachObfuscator/Options/Options.swift:177-178 | after the loop the mangler is that of the last `-m`, or unchanged when there is none |
| OptionsParsing.ManglerFollowsOptions | MachObfuscator/Options/Options.swift:177-178 | the mangler is the default without `-m`; otherwise the last key's mangler, or none for an unknown key |
| OptionsParsing.RunSwitchesPass | MachObfuscator/Options/Options.swift:163-182 | a run of switches never stops and leaves no C string pending |
| OptionsParsing.SwitchesAlwaysParse | MachObfuscator/Options/Options.swift:163-182 | a command line of switches alone always parses |
| OptionsParsing.RunWhitelist | MachObfuscator/Options/Options.swift:222-223 | after the loop a file passes the whitelist exactly when it passed before, or it is one of the named frameworks |
| OptionsParsing.RunBlacklist | MachObfuscator/Options/Options.swift:224-227 | after the loop a file passes the blacklist exactly when it passed before and survives every skip option given |
| OptionsParsing.FilterFollowsOptions | MachObfuscator/Options/Options.swift:258-264 | a file is obfuscable exactly when it is a named framework, or it is obfuscable by default and no skip option excludes it |
| OptionsParsing.FilterIgnoresOrder | MachObfuscator/Options/Options.swift:258-264 | two command lines naming the same frameworks and skips, in any order, give filters that agree on every file |
| OptionsParsing.RunAcceptsOnly | MachObfuscator/Options/Options.swift:161-252 | a loop that did not stop met only handled codes, compiling regexes and well-formed section definitions |
| OptionsParsing.EveryEventAccepted | MachObfuscator/Options/Options.swift:161-252 | in a successful parse, every code has a case, every regular expression compiles and every section definition has two pieces |
| OptionsParsing.StepPassesWhenReady | MachObfuscator/Options/Options.swift:161-252 | a pass never fails on an accepted event that the waiting C string allows: `--replace-cstring` with nothing waiting, `--replace-cstring-with` no longer than the waiting C string |
| OptionsParsing.RunPassesWhenReady | MachObfuscator/Options/Options.swift:161-252 | the loop never stops on accepted events whose C-string options, after what is waiting, alternate and fit |
| OptionsParsing.WellFormedEventsParse | MachObfuscator/Options/Options.swift:161-256 | the converse of `EveryEventAccepted` and `CstringsComeInPairs`: accepted events whose C-string options come in complete, fitting pairs always parse |
| OptionTables.LongCode | MachObfuscator/Options/Options.swift:128-161 | getopt's code for a long name spelt out in full: the code of its first table row with that name, or `?` when no row has that name |
| OptionTables.WrittenCodes | MachObfuscator/Options/Options.swift:128-159 | the written table has 24 rows, with these codes in this order |
| OptionTables.ShortCodesAre | MachObfuscator/Options/Options.swift:161 | `qvdhDm:` yields exactly the codes of q, v, d, h, D and m |
| OptionTables.SwiftReflectionUnreachable | MachObfuscator/Options/Options.swift:128-159 | no row of the written table has `swift-reflection` or its code, and no row name begins with `swift-reflection`, so getopt reports it as unknown even allowing abbreviations |
| OptionTables.SwiftReflectionNeverOn | MachObfuscator/Options/Options.swift:181-182 | from the written tables, Swift reflection obfuscation is never switched on |
| OptionTables.LongQuietAndDebugUnknown | MachObfuscator/Options/Options.swift:128-159 | `--quiet` and `--debug` have no row in the written table, and no row name begins with either, so getopt reports them as unknown even allowing abbreviations |
| OptionTables.NoRowBeginsWith | MachObfuscator/Options/Options.swift:129-156 | no name of the written table begins with `quiet`, `debug` or `swift-reflection`, so none of the three abbreviates a written row |
| OptionTables.WrittenTableReachesOtherCases | MachObfuscator/Options/Options.swift:128-182 | every other code the `switch` handles can be produced from the written tables |
| OptionTables.CorrectedTableReachesEveryCase | MachObfuscator/Options/Options.swift:162-251 | every code the `switch` handles can be produced from the corrected tables |
| OptionTables.LongCodeAppended | MachObfuscator/Options/Options.swift:128-159 | appending rows does not change the code of a name the table already lacked |
| OptionTables.UndeclaredCodes | MachObfuscator/Options/Options.swift:284-291 | the added rows map quiet, debug and swift-reflection to their cases |
| OptionTables.CorrectedQuietAndDebug | MachObfuscator/Options/Options.swift:284-286 | with the corrected table, `--quiet` and `--debug` yield the codes of `-q` and `-d` |
| OptionTables.CorrectedSwiftReflection | MachObfuscator/Options/Options.swift:291 | with the corrected table, `--swift-reflection` yields its case |
| OptionTables.SwiftReflectionSwitchesOn | MachObfuscator/Options/Options.swift:181-182 | with the corrected table, `--swift-reflection` parses and switches reflection obfuscation on |

## Left out

- The getopt_long call itself is not modelled. Its effect is the input sequence of (code,
  argument) events, plus the operands that follow them. `OptionTables` models only which codes
  the tables can produce.
- `OptionTables.LongCode`: only names spelt out in full are looked up. `getopt_long` also accepts
  any unambiguous abbreviation of a long name (`--verb` for `--verbose`), and an exact match wins
  over abbreviations; that rule is not modelled. The two findings do not depend on it:
  `OptionTables.NoRowBeginsWith` shows that no written name begins with `quiet`, `debug` or
  `swift-reflection`.
- Regular expressions are modelled only through two collaborators. Whether `NSRegularExpression`
  accepts a pattern is `compiles`. Whether it matches a name is `matches`. Options keep the
  pattern, not the compiled object.
- URL handling is not modelled. This covers `URL(fileURLWithPath:)`,
  `resolvingSymlinksInPath` and `deletingLastPathComponent`. Paths given on the command line stay
  strings, and `appDirectoryOrFile` goes through an uninterpreted `resolvedFileURL`.
- Collaborators are uninterpreted function values. This covers:
  - the dependency-node loader;
  - `RpathsAccumulator.resolve`;
  - `resolvedSystemFrameworkLocations`;
  - `listFilesRecursively`;
  - the symbol loaders;
  - `capitalizedOnFirstLetter`;
  - `Mach.libobjcSelectors`.
  `String+objCPropertyNames.swift`, `String+objCMethodNames.swift`, `SymbolManglers.swift` and
  `run.swift` are not part of this model.
- Printing, logging and timing are not modelled. This covers `print`, `LOGGER` and `time`,
  including the warnings for blacklist entries that no image has and for a Mach-O file that is not
  an executable. `autoreleasepool` is left out for the same reason.
- The usage text is not modelled. This includes the `-t` its usage line advertises, which no
  table declares.
- The parallelism of `concurrentMap` is not modelled. The header symbols are the union over all
  frameworks, whatever the order.
- Sets are unordered in Swift, so `PathsBuilding.ObfuscationPaths.Step` pushes the unclassified
  dependencies in whatever order `Listing` gives. The model does not fix the order of
  `.reversed()` over the set. Nothing proved depends on that order.
- `PathsBuilding.ObfuscationPaths.AddExecutable`: the postcondition says which images are
  classified and resolved, not in which order they are visited. The upper bound is "a root or a
  target of some recorded image", not reachability from the roots: a group of images that only
  target each other is not ruled out. The same holds for `Traverse`, `AddEach`,
  `AddAllExecutables`, `ForExecutable` and `ForAllExecutables`.
- `PathsBuilding.ObfuscationPaths.Traverse`: an abort is tied to a file whose visit yields the
  error, not to the image that was on top of the stack. The exact tie, to the popped image, is
  stated per iteration by `Step`. `AddExecutable`, `AddEach` and `AddAllExecutables` state the
  abort under some rpath context, since their accumulator is local. `ForExecutable` and
  `ForAllExecutables` do not return the paths on failure, so they state only `Justified`.
- `PathsBuilding.ObfuscationPaths.Step`: `Listing` stands in for `.uniq` followed by the set
  subtraction. Its order is the one `Listing` picks.
- `Classification.AsCpuId`: only the 64-bit packing is modelled. The CPU type and subtype are
  taken as unsigned 32-bit patterns, and the signedness of `cpu_type_t` is not modelled.
- A `Result.Fatal` stands for `fatalError` and `try!`. The model returns the reason instead of
  trapping.
- `DylibResolving.AmbiguityIsFatal`: the source's message names the file repository. The model
  names the loader image instead.
- `buildFor` loads the symbols of each image with `try!`, so an image that cannot be loaded stops
  the run: `Classification.LoadUserSources`, `Classification.LoadSystemSources` and both
  `BuildFor` variants return `UnloadableImage`.
- `Strings.Split`: a Swift `String` is a sequence of grapheme clusters (Characters), and
  `split(separator:)` compares Characters. The model compares single Unicode scalars. So a comma
  followed by a combining mark, which Swift sees as one Character that is not the separator, is a
  separator in the model. `Strings.Utf8Length` is not affected: `utf8.count` is the sum of the
  encoded widths of the scalars, which is what the model sums.
- `Strings.LowercasedAscii`: only ASCII letters are lower-cased, where Swift's `lowercased()`
  follows Unicode. The model uses it only to compare a path extension with `"nib"`, and the two
  agree on that comparison.

## Findings

| source | as written | input that shows it | evidently intended | confidence | as-written member | corrected member |
|---|---|---|---|---|---|---|
| MachObfuscator/Options/Options.swift:128-159 | `longopts` has no `swift-reflection` row, although the `switch` handles `swiftReflection` (181-182) and the usage text documents the option (291) | `--swift-reflection`: getopt reports it as unknown (`?`), so reflection obfuscation can never be switched on | a `swift-reflection` row with no argument whose code is `OptLongCases.swiftReflection` | not executed | OptionTables.SwiftReflectionNeverOn | OptionTables.SwiftReflectionSwitchesOn |
| MachObfuscator/Options/Options.swift:128-159 | `longopts` has no `quiet` or `debug` row, although the usage text documents `--quiet` (284) and `--debug` (286) | `--quiet` or `--debug`: getopt reports each as unknown instead of setting the flag | rows for `quiet` and `debug` with the codes of `-q` and `-d` | not executed | OptionTables.LongQuietAndDebugUnknown | OptionTables.CorrectedQuietAndDebug |
