/** The set algebra shared by both `ObfuscationSymbols.buildFor` variants: which Objective-C
    selectors and classes must keep their names (the blacklist), which may be renamed (the
    whitelist), which user symbols were held back because they collide with the blacklist (the
    removed list), and the export tries of the obfuscable images keyed by architecture.
    Everything here is a pure function of symbols that were already loaded. */
module Classification {
  import opened Wrappers
  import opened Strings
  import opened Dictionaries

  /** `ObjectSymbols`: a skip list, or the symbols declared by a header directory. */
  datatype ObjectSymbols = ObjectSymbols(selectors: set<string>, classNames: set<string>)

  /** `ObjCSymbols`: one of the three lists the classification produces. */
  datatype ObjCSymbols = ObjCSymbols(selectors: set<string>, classes: set<string>)

  type UInt32 = x: int | 0 <= x < 0x1_0000_0000
  type UInt64 = x: int | 0 <= x < 0x1_0000_0000_0000_0000

  /** The architecture of one slice: CPU type and subtype, as 32-bit patterns. */
  datatype Cpu = Cpu(cpuType: UInt32, cpuSubtype: UInt32)

  /** The symbols one slice of one image offers: selectors, class names, literal C strings,
      names of `@dynamic` properties, its architecture and its export trie (bitcode slices have
      none). The trie's contents are opaque here. */
  datatype SymbolsSource<Trie> = SymbolsSource(
    selectors: set<string>,
    classNames: set<string>,
    cstrings: set<string>,
    dynamicPropertyNames: set<string>,
    cpu: Cpu,
    exportedTrie: Option<Trie>)

  /** A regular expression, known by its pattern. */
  type Pattern = string

  /** `ObjcOptions` (MachObfuscator/Options/Options.swift): literal and regular-expression
      blacklists given on the command line. */
  datatype ObjcOptions = ObjcOptions(
    classesBlacklist: seq<string>,
    classesBlacklistRegex: seq<Pattern>,
    selectorsBlacklist: seq<string>,
    selectorsBlacklistRegex: seq<Pattern>)

  /** `ObjcOptions()`: nothing blacklisted on the command line. */
  const NoObjcOptions := ObjcOptions([], [], [], [])

  /** Collaborators whose code is not part of this model: `String.capitalizedOnFirstLetter`,
      `Mach.libobjcSelectors` and whether a regular expression matches a name somewhere. */
  datatype Naming = Naming(
    capitalizedOnFirstLetter: string -> string,
    libobjcSelectors: set<string>,
    matches: (Pattern, string) -> bool)

  /** Everything `buildFor` has loaded before it starts classifying: the slices of each
      obfuscable image, the slices of all unobfuscable dependencies, the symbols of the system
      framework headers and the symbols to skip. */
  datatype Loaded<Url, Trie(==)> = Loaded(
    userSourcesPerPath: map<Url, seq<SymbolsSource<Trie>>>,
    systemSources: set<SymbolsSource<Trie>>,
    systemHeaderSymbols: ObjectSymbols,
    skippedSymbols: ObjectSymbols)

  /** The key of the export-trie map of one image. */
  type CpuId = UInt64

  /** The result of `buildFor`. */
  datatype ObfuscationSymbols<Url, Trie> = ObfuscationSymbols(
    whitelist: ObjCSymbols,
    blacklist: ObjCSymbols,
    removedList: ObjCSymbols,
    exportTriesPerCpuIdPerURL: map<Url, map<CpuId, Trie>>)

  datatype SymbolsError =
    | UnloadableImage    // `try! loader.load(forURL:)` on an image whose symbols cannot be loaded
    | DuplicatedCpuId    // two slices of one image with the same architecture and a trie each
    | SameOffset         // two architectures of a fat image at the same offset

  /** `[ObjectSymbols].flatten()`: the union of all parts. */
  function Flatten(parts: seq<ObjectSymbols>): (r: ObjectSymbols)
    ensures forall s :: s in r.selectors <==> exists i :: 0 <= i < |parts| && s in parts[i].selectors
    ensures forall c :: c in r.classNames <==> exists i :: 0 <= i < |parts| && c in parts[i].classNames
    decreases |parts|
  {
    if parts == [] then ObjectSymbols({}, {})
    else
      var rest := Flatten(parts[1..]);
      assert forall i :: 1 <= i < |parts| ==> parts[i] == parts[1..][i - 1];
      assert forall j :: 0 <= j < |parts| - 1 ==> parts[1..][j] == parts[j + 1];
      ObjectSymbols(parts[0].selectors + rest.selectors, parts[0].classNames + rest.classNames)
  }

  /** `Cpu.asCpuId`: the type in the high 32 bits and the subtype in the low 32 bits. */
  function AsCpuId(cpu: Cpu): (id: CpuId)
    ensures id / 0x1_0000_0000 == cpu.cpuType && id % 0x1_0000_0000 == cpu.cpuSubtype
  {
    cpu.cpuType * 0x1_0000_0000 + cpu.cpuSubtype
  }

  /** Different architectures never share a key. */
  lemma AsCpuIdInjective(a: Cpu, b: Cpu)
    requires AsCpuId(a) == AsCpuId(b)
    ensures a == b
  {
    assert a.cpuType == AsCpuId(a) / 0x1_0000_0000 == b.cpuType;
    assert a.cpuSubtype == AsCpuId(a) % 0x1_0000_0000 == b.cpuSubtype;
  }

  /** `String.asSetter`: the empty name stays empty; any other name `n` becomes
      `"set" + n.capitalizedOnFirstLetter + ":"`. */
  function AsSetter(name: string, naming: Naming): (r: string)
    ensures r == "" <==> name == ""
    ensures name != "" ==>
      && StartsWith(r, "set") && EndsWith(r, ":")
      && |r| == |naming.capitalizedOnFirstLetter(name)| + 4
      && r[3..|r| - 1] == naming.capitalizedOnFirstLetter(name)
  {
    if |name| >= 1 then "set" + naming.capitalizedOnFirstLetter(name) + ":" else name
  }

  /** Two names whose capitalised forms differ have different setters. */
  lemma SettersFollowCapitalization(a: string, b: string, naming: Naming)
    requires a != "" && b != ""
    requires naming.capitalizedOnFirstLetter(a) != naming.capitalizedOnFirstLetter(b)
    ensures AsSetter(a, naming) != AsSetter(b, naming)
  {
  }

  /** The four name lists a slice carries. */
  datatype Part = Selectors | ClassNames | CStrings | DynamicPropertyNames

  function PartOf<Trie>(src: SymbolsSource<Trie>, part: Part): set<string> {
    match part
    case Selectors => src.selectors
    case ClassNames => src.classNames
    case CStrings => src.cstrings
    case DynamicPropertyNames => src.dynamicPropertyNames
  }

  /** The names one part of the given slices holds, once each (`flatMap { ... }.uniq`). */
  function Collect<Trie(==, !new)>(sources: set<SymbolsSource<Trie>>, part: Part): (r: set<string>)
    ensures forall x :: x in r <==> exists src :: src in sources && x in PartOf(src, part)
  {
    set src, x | src in sources && x in PartOf(src, part) :: x
  }

  /** `userSourcesPerPath.values.flatMap { $0 }`: every slice of every obfuscable image. */
  function UserSources<Url(!new), Trie(==, !new)>(l: Loaded<Url, Trie>): (r: set<SymbolsSource<Trie>>)
    ensures forall src :: src in r <==> exists url :: url in l.userSourcesPerPath && src in l.userSourcesPerPath[url]
  {
    set url, src | url in l.userSourcesPerPath && src in l.userSourcesPerPath[url] :: src
  }

  /** The selectors of the obfuscable images. */
  function UserSelectors<Url(!new), Trie(==, !new)>(l: Loaded<Url, Trie>): set<string> {
    Collect(UserSources(l), Selectors)
  }

  /** The class names of the obfuscable images. */
  function UserClasses<Url(!new), Trie(==, !new)>(l: Loaded<Url, Trie>): set<string> {
    Collect(UserSources(l), ClassNames)
  }

  /** `names.matching(regexes:)`: the names some of the expressions match. */
  function Matching(names: set<string>, regexes: seq<Pattern>, naming: Naming): (r: set<string>)
    ensures forall x :: x in r <==> x in names && exists i :: 0 <= i < |regexes| && naming.matches(regexes[i], x)
  {
    set x | x in names && exists i :: 0 <= i < |regexes| && naming.matches(regexes[i], x)
  }

  /** `blackListGetters`: the selectors of the headers, of the unobfuscable images and of the skip
      list, the C strings of every image and the dynamic properties of the obfuscable images. */
  function BlacklistGetters<Url(!new), Trie(==, !new)>(l: Loaded<Url, Trie>): (r: set<string>)
    ensures forall x :: x in r <==>
      || x in l.systemHeaderSymbols.selectors
      || (exists src :: src in l.systemSources && (x in src.selectors || x in src.cstrings))
      || (exists src :: src in UserSources(l) && (x in src.dynamicPropertyNames || x in src.cstrings))
      || x in l.skippedSymbols.selectors
  {
    l.systemHeaderSymbols.selectors
      + Collect(l.systemSources, Selectors)
      + Collect(l.systemSources, CStrings)
      + Collect(UserSources(l), DynamicPropertyNames)
      + Collect(UserSources(l), CStrings)
      + l.skippedSymbols.selectors
  }

  /** `blacklistSetters`: the setter of every blacklisted getter. */
  function BlacklistSetters(getters: set<string>, naming: Naming): (r: set<string>)
    ensures forall g :: g in getters ==> AsSetter(g, naming) in r
    ensures forall x :: x in r ==> exists g :: g in getters && x == AsSetter(g, naming)
  {
    set g | g in getters :: AsSetter(g, naming)
  }

  /** `blacklistSelectors`: getters, their setters, the runtime's own selectors, the literal
      selector blacklist and the user selectors a blacklist expression matches. */
  function BlacklistSelectors<Url(!new), Trie(==, !new)>(l: Loaded<Url, Trie>, options: ObjcOptions, naming: Naming): (r: set<string>)
    ensures forall x :: x in r <==>
      || x in BlacklistGetters(l)
      || (exists g :: g in BlacklistGetters(l) && x == AsSetter(g, naming))
      || x in naming.libobjcSelectors
      || x in options.selectorsBlacklist
      || (x in UserSelectors(l) && exists i :: 0 <= i < |options.selectorsBlacklistRegex| &&
                                                naming.matches(options.selectorsBlacklistRegex[i], x))
  {
    var getters := BlacklistGetters(l);
    getters
      + BlacklistSetters(getters, naming)
      + naming.libobjcSelectors
      + (set s | s in options.selectorsBlacklist)
      + Matching(UserSelectors(l), options.selectorsBlacklistRegex, naming)
  }

  /** `blacklistClasses`: the classes of the headers, of the unobfuscable images and of the skip
      list, the C strings of every image, the literal class blacklist and the user classes a
      blacklist expression matches. */
  function BlacklistClasses<Url(!new), Trie(==, !new)>(l: Loaded<Url, Trie>, options: ObjcOptions, naming: Naming): (r: set<string>)
    ensures forall x :: x in r <==>
      || x in l.systemHeaderSymbols.classNames
      || (exists src :: src in l.systemSources && (x in src.classNames || x in src.cstrings))
      || (exists src :: src in UserSources(l) && x in src.cstrings)
      || x in l.skippedSymbols.classNames
      || x in options.classesBlacklist
      || (x in UserClasses(l) && exists i :: 0 <= i < |options.classesBlacklistRegex| &&
                                              naming.matches(options.classesBlacklistRegex[i], x))
  {
    l.systemHeaderSymbols.classNames
      + Collect(l.systemSources, ClassNames)
      + Collect(l.systemSources, CStrings)
      + Collect(UserSources(l), CStrings)
      + l.skippedSymbols.classNames
      + (set c | c in options.classesBlacklist)
      + Matching(UserClasses(l), options.classesBlacklistRegex, naming)
  }

  /** The (architecture key, trie) pairs of the slices that carry a trie, in slice order. */
  function TriePairs<Trie(==, !new)>(sources: seq<SymbolsSource<Trie>>): (r: seq<(CpuId, Trie)>)
    ensures |r| <= |sources|
    ensures forall p :: p in r <==>
      exists src :: src in sources && src.exportedTrie.Some? && p == (AsCpuId(src.cpu), src.exportedTrie.value)
    decreases |sources|
  {
    if sources == [] then []
    else
      var src := sources[0];
      assert forall s :: s in sources <==> s == src || s in sources[1..];
      (if src.exportedTrie.Some? then [(AsCpuId(src.cpu), src.exportedTrie.value)] else []) + TriePairs(sources[1..])
  }

  /** `whitelistExportTriePerCpuIdPerURL`: per obfuscable image, the trie of each slice that has
      one, keyed by its architecture; two such slices with one key abort the run. */
  function ExportTries<Url(!new), Trie(==, !new)>(perPath: map<Url, seq<SymbolsSource<Trie>>>): (r: Result<map<Url, map<CpuId, Trie>>, SymbolsError>)
    ensures r.Ok? <==> forall url :: url in perPath ==> DistinctKeys(TriePairs(perPath[url]))
    ensures r.Fatal? ==> r.error == DuplicatedCpuId
    ensures r.Ok? ==>
      && r.value.Keys == perPath.Keys
      && forall url :: url in perPath ==> HoldsExactly(r.value[url], TriePairs(perPath[url]))
  {
    if forall url :: url in perPath ==> UniqueKeys(TriePairs(perPath[url])).Some? then
      Ok(map url | url in perPath :: UniqueKeys(TriePairs(perPath[url])).value)
    else
      Fatal(DuplicatedCpuId)
  }

  /** Per category, a user symbol is on the whitelist when the blacklist lacks it and on the
      removed list when the blacklist has it; nothing else is on either list. */
  ghost predicate SplitsUserSymbols<Url, Trie>(o: ObfuscationSymbols<Url, Trie>, userSelectors: set<string>, userClasses: set<string>) {
    && (forall s :: s in o.whitelist.selectors <==> s in userSelectors && s !in o.blacklist.selectors)
    && (forall c :: c in o.whitelist.classes <==> c in userClasses && c !in o.blacklist.classes)
    && (forall s :: s in o.removedList.selectors <==> s in userSelectors && s in o.blacklist.selectors)
    && (forall c :: c in o.removedList.classes <==> c in userClasses && c in o.blacklist.classes)
  }

  /** Such lists partition the user symbols, and the whitelist shares nothing with the blacklist. */
  lemma SplitIsPartition<Url, Trie>(o: ObfuscationSymbols<Url, Trie>, userSelectors: set<string>, userClasses: set<string>)
    requires SplitsUserSymbols(o, userSelectors, userClasses)
    ensures o.whitelist.selectors + o.removedList.selectors == userSelectors
    ensures o.whitelist.selectors !! o.removedList.selectors
    ensures o.whitelist.classes + o.removedList.classes == userClasses
    ensures o.whitelist.classes !! o.removedList.classes
    ensures o.whitelist.selectors !! o.blacklist.selectors
    ensures o.whitelist.classes !! o.blacklist.classes
    ensures o.removedList.selectors <= o.blacklist.selectors
    ensures o.removedList.classes <= o.blacklist.classes
  {
    assert o.whitelist.selectors + o.removedList.selectors == userSelectors;
    assert o.whitelist.classes + o.removedList.classes == userClasses;
  }

  /** The classification: whitelist = user symbols minus the blacklist, removed list = user
      symbols on the blacklist, per category; the export tries as above. */
  function Classify<Url(!new), Trie(==, !new)>(l: Loaded<Url, Trie>, options: ObjcOptions, naming: Naming): (r: Result<ObfuscationSymbols<Url, Trie>, SymbolsError>)
    ensures r.Ok? <==> ExportTries(l.userSourcesPerPath).Ok?
    ensures r.Fatal? ==> r.error == DuplicatedCpuId
    ensures r.Ok? ==>
      && r.value.blacklist == ObjCSymbols(BlacklistSelectors(l, options, naming), BlacklistClasses(l, options, naming))
      && r.value.exportTriesPerCpuIdPerURL == ExportTries(l.userSourcesPerPath).value
      && SplitsUserSymbols(r.value, UserSelectors(l), UserClasses(l))
  {
    var tries :- ExportTries(l.userSourcesPerPath);
    var userSelectors := UserSelectors(l);
    var userClasses := UserClasses(l);
    var blacklistSelectors := BlacklistSelectors(l, options, naming);
    var blacklistClasses := BlacklistClasses(l, options, naming);
    Ok(ObfuscationSymbols(
      ObjCSymbols(userSelectors - blacklistSelectors, userClasses - blacklistClasses),
      ObjCSymbols(blacklistSelectors, blacklistClasses),
      ObjCSymbols(userSelectors * blacklistSelectors, userClasses * blacklistClasses),
      tries))
  }

  /** The whitelist and the removed list split the user symbols between them, and the whitelist
      shares nothing with the blacklist. */
  lemma WhitelistAndRemovedPartitionUserSymbols<Url(!new), Trie(!new)>(l: Loaded<Url, Trie>, options: ObjcOptions, naming: Naming)
    requires Classify(l, options, naming).Ok?
    ensures var o := Classify(l, options, naming).value;
      && o.whitelist.selectors + o.removedList.selectors == UserSelectors(l)
      && o.whitelist.selectors !! o.removedList.selectors
      && o.whitelist.classes + o.removedList.classes == UserClasses(l)
      && o.whitelist.classes !! o.removedList.classes
      && o.whitelist.selectors !! o.blacklist.selectors
      && o.whitelist.classes !! o.blacklist.classes
      && o.removedList.selectors <= o.blacklist.selectors
      && o.removedList.classes <= o.blacklist.classes
  {
    SplitIsPartition(Classify(l, options, naming).value, UserSelectors(l), UserClasses(l));
  }

  /** The whitelist is what the user images declare less the blacklist, per category. */
  lemma WhitelistIsUserMinusBlacklist<Url(!new), Trie(!new)>(l: Loaded<Url, Trie>, options: ObjcOptions, naming: Naming)
    requires Classify(l, options, naming).Ok?
    ensures var o := Classify(l, options, naming).value;
      && o.whitelist.selectors == UserSelectors(l) - BlacklistSelectors(l, options, naming)
      && o.whitelist.classes == UserClasses(l) - BlacklistClasses(l, options, naming)
  {
    var o := Classify(l, options, naming).value;
    assert SplitsUserSymbols(o, UserSelectors(l), UserClasses(l));
    assert o.whitelist.selectors == UserSelectors(l) - BlacklistSelectors(l, options, naming);
  }

  /** The setter of every non-empty blacklisted getter is blacklisted too. */
  lemma SettersOfGettersBlacklisted<Url(!new), Trie(!new)>(l: Loaded<Url, Trie>, options: ObjcOptions, naming: Naming, getter: string)
    requires getter in BlacklistGetters(l) && getter != ""
    ensures "set" + naming.capitalizedOnFirstLetter(getter) + ":" in BlacklistSelectors(l, options, naming)
    ensures getter in BlacklistSelectors(l, options, naming)
  {
    assert AsSetter(getter, naming) == "set" + naming.capitalizedOnFirstLetter(getter) + ":";
  }

  /** Literal blacklist entries are blacklisted whether or not an image declares them, and the
      outcome (success or abort) does not depend on the options or the collaborators at all:
      a missing entry only warns. */
  lemma LiteralBlacklistsNeverFail<Url(!new), Trie(!new)>(l: Loaded<Url, Trie>, options: ObjcOptions, naming: Naming,
                                              options': ObjcOptions, naming': Naming)
    ensures Classify(l, options, naming).Ok? == Classify(l, options', naming').Ok?
    ensures Classify(l, options, naming).Ok? ==>
      && (forall s :: s in options.selectorsBlacklist ==> s in Classify(l, options, naming).value.blacklist.selectors)
      && (forall c :: c in options.classesBlacklist ==> c in Classify(l, options, naming).value.blacklist.classes)
  {
  }

  /** The headers, the skip list and the unobfuscable dependencies keep all their selectors. */
  lemma BlacklistCoversSystemSelectors<Url(!new), Trie(!new)>(l: Loaded<Url, Trie>, options: ObjcOptions, naming: Naming)
    ensures l.systemHeaderSymbols.selectors + l.skippedSymbols.selectors <= BlacklistSelectors(l, options, naming)
    ensures forall src :: src in l.systemSources ==> src.selectors + src.cstrings <= BlacklistSelectors(l, options, naming)
  {
    var getters := BlacklistGetters(l);
    var blacklist := BlacklistSelectors(l, options, naming);
    forall x | x in getters ensures x in blacklist { }
    forall src, x | src in l.systemSources && x in src.selectors + src.cstrings ensures x in getters { }
  }

  /** The headers, the skip list and the unobfuscable dependencies keep all their classes. */
  lemma BlacklistCoversSystemClasses<Url(!new), Trie(!new)>(l: Loaded<Url, Trie>, options: ObjcOptions, naming: Naming)
    ensures l.systemHeaderSymbols.classNames + l.skippedSymbols.classNames <= BlacklistClasses(l, options, naming)
    ensures forall src :: src in l.systemSources ==> src.classNames + src.cstrings <= BlacklistClasses(l, options, naming)
  {
    var blacklist := BlacklistClasses(l, options, naming);
    forall src, x | src in l.systemSources && x in src.classNames + src.cstrings ensures x in blacklist { }
  }

  /** The three sets of `ObfuscationPaths` that `buildFor` reads. */
  datatype PathsSnapshot<Url> = PathsSnapshot(
    obfuscableImages: set<Url>,
    unobfuscableDependencies: set<Url>,
    systemFrameworks: set<Url>)

  /** `[URL: [SymbolsSource]](uniqueKeysWithValues: obfuscableImages.map { ($0, try! loader.load(forURL: $0)) })`:
      the slices of each obfuscable image; `load` yields `None` where the loader throws, which
      `try!` turns into an abort. */
  function LoadUserSources<Url(!new), Trie(==, !new)>(images: set<Url>, load: Url -> Option<seq<SymbolsSource<Trie>>>)
    : (r: Result<map<Url, seq<SymbolsSource<Trie>>>, SymbolsError>)
    ensures r.Ok? <==> forall url :: url in images ==> load(url).Some?
    ensures r.Fatal? ==> r.error == UnloadableImage
    ensures r.Ok? ==> r.value.Keys == images && forall url :: url in images ==> r.value[url] == load(url).value
  {
    if forall url :: url in images ==> load(url).Some? then
      Ok(map url | url in images :: load(url).value)
    else
      Fatal(UnloadableImage)
  }

  /** `unobfuscableDependencies.flatMap { try loader.load(forURL: $0) }` under `try!`: the slices
      of all unobfuscable dependencies. */
  function LoadSystemSources<Url(!new), Trie(==, !new)>(images: set<Url>, load: Url -> Option<seq<SymbolsSource<Trie>>>)
    : (r: Result<set<SymbolsSource<Trie>>, SymbolsError>)
    ensures r.Ok? <==> forall url :: url in images ==> load(url).Some?
    ensures r.Fatal? ==> r.error == UnloadableImage
    ensures r.Ok? ==> forall src :: src in r.value <==> exists url :: url in images && src in load(url).value
  {
    if forall url :: url in images ==> load(url).Some? then
      Ok(set url, src | url in images && src in load(url).value :: src)
    else
      Fatal(UnloadableImage)
  }

  /** `systemFrameworks.concurrentMap(loadHeaders).flatten()`: the symbols of all framework
      headers; the union does not depend on the order in which the loads finish. */
  function HeaderSymbols<Url(!new)>(frameworks: set<Url>, loadHeaders: Url -> ObjectSymbols): (r: ObjectSymbols)
    ensures forall s :: s in r.selectors <==> exists url :: url in frameworks && s in loadHeaders(url).selectors
    ensures forall c :: c in r.classNames <==> exists url :: url in frameworks && c in loadHeaders(url).classNames
  {
    ObjectSymbols(
      set url, s | url in frameworks && s in loadHeaders(url).selectors :: s,
      set url, c | url in frameworks && c in loadHeaders(url).classNames :: c)
  }

  /** One architecture slice of a fat image. */
  datatype Architecture<Mach> = Architecture(offset: UInt64, mach: Mach)

  /** `Image.contents`: a fat image with its architectures, or a single Mach-O. */
  datatype ImageContents<Mach> = Fat(architectures: seq<Architecture<Mach>>) | Thin(mach: Mach)

  /** The (offset, Mach-O) pairs of the architectures, in order. */
  function OffsetPairs<Mach>(architectures: seq<Architecture<Mach>>): (r: seq<(UInt64, Mach)>)
    ensures |r| == |architectures|
    ensures forall i :: 0 <= i < |r| ==> r[i] == (architectures[i].offset, architectures[i].mach)
  {
    seq(|architectures|, i requires 0 <= i < |architectures| => (architectures[i].offset, architectures[i].mach))
  }

  /** `Image.machPerOffset`: a thin image is its Mach-O at offset 0; a fat image maps each
      architecture's offset to its Mach-O, and two architectures at one offset abort the run. */
  function MachPerOffset<Mach(==)>(contents: ImageContents<Mach>): (r: Result<map<UInt64, Mach>, SymbolsError>)
    ensures r.Fatal? ==> r.error == SameOffset && contents.Fat?
    ensures contents.Thin? ==> r.Ok? && r.value.Keys == {0} && r.value[0] == contents.mach
    ensures contents.Fat? ==>
      && (r.Ok? <==> forall i, j :: 0 <= i < j < |contents.architectures| ==>
                       contents.architectures[i].offset != contents.architectures[j].offset)
      && (r.Ok? ==> forall a :: a in contents.architectures ==> a.offset in r.value && r.value[a.offset] == a.mach)
      && (r.Ok? ==> forall offset :: offset in r.value ==> Architecture(offset, r.value[offset]) in contents.architectures)
  {
    match contents
    case Thin(mach) => Ok(map[0 := mach])
    case Fat(architectures) =>
      var pairs := OffsetPairs(architectures);
      match UniqueKeys(pairs)
      case None => Fatal(SameOffset)
      case Some(m) =>
        assert forall a :: a in architectures ==> (a.offset, a.mach) in pairs by {
          forall a | a in architectures ensures (a.offset, a.mach) in pairs {
            var i :| 0 <= i < |architectures| && architectures[i] == a;
            assert pairs[i] == (a.offset, a.mach);
          }
        }
        assert forall offset :: offset in m ==> Architecture(offset, m[offset]) in architectures by {
          forall offset | offset in m ensures Architecture(offset, m[offset]) in architectures {
            var i :| 0 <= i < |pairs| && pairs[i] == (offset, m[offset]);
            assert architectures[i] == Architecture(offset, m[offset]);
          }
        }
        Ok(m)
  }
}
