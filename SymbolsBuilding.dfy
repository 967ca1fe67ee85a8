/** `ObfuscationSymbols.buildFor` as the application builds it: the symbols to skip come from
    source directories and text lists named on the command line, and the header symbols of each
    system framework come from its directory. */
module SymbolsBuilding {
  import opened Wrappers
  import opened Dictionaries
  import opened Classification

  /** The loaders `buildFor` is handed; their code is not part of this model. */
  datatype Loaders<!Url, Trie(==)> = Loaders(
    load: Url -> Option<seq<SymbolsSource<Trie>>>,   // SymbolsSourceLoader.load(forURL:), None where it throws
    loadFromDirectory: Url -> ObjectSymbols,          // RecursiveSourceSymbolsLoader.load(fromDirectory:)
    loadFromTextFile: Url -> ObjectSymbols)           // TextFileSymbolListLoader.load(fromTextFile:)

  /** `(skippedSymbolsSources.map(load(fromDirectory:)) + skippedSymbolsLists.map(load(fromTextFile:))).flatten()`. */
  function SkippedSymbols<Url, Trie(==)>(sources: seq<Url>, lists: seq<Url>, loaders: Loaders<Url, Trie>): (r: ObjectSymbols)
    ensures forall s :: s in r.selectors <==>
      || (exists i :: 0 <= i < |sources| && s in loaders.loadFromDirectory(sources[i]).selectors)
      || (exists j :: 0 <= j < |lists| && s in loaders.loadFromTextFile(lists[j]).selectors)
    ensures forall c :: c in r.classNames <==>
      || (exists i :: 0 <= i < |sources| && c in loaders.loadFromDirectory(sources[i]).classNames)
      || (exists j :: 0 <= j < |lists| && c in loaders.loadFromTextFile(lists[j]).classNames)
  {
    var fromSources := LoadEach(sources, loaders.loadFromDirectory);
    var fromLists := LoadEach(lists, loaders.loadFromTextFile);
    FlattenConcat(fromSources, fromLists);
    FlattenLoaded(sources, loaders.loadFromDirectory);
    FlattenLoaded(lists, loaders.loadFromTextFile);
    Flatten(fromSources + fromLists)
  }

  /** The flattened loads hold exactly what some load yields. */
  lemma FlattenLoaded<Url>(urls: seq<Url>, loader: Url -> ObjectSymbols)
    ensures forall s :: s in Flatten(LoadEach(urls, loader)).selectors <==>
      exists i :: 0 <= i < |urls| && s in loader(urls[i]).selectors
    ensures forall c :: c in Flatten(LoadEach(urls, loader)).classNames <==>
      exists i :: 0 <= i < |urls| && c in loader(urls[i]).classNames
  {
    var parts := LoadEach(urls, loader);
    forall s | (exists i :: 0 <= i < |urls| && s in loader(urls[i]).selectors)
      ensures s in Flatten(parts).selectors
    {
      var i :| 0 <= i < |urls| && s in loader(urls[i]).selectors;
      assert s in parts[i].selectors;
    }
    forall c | (exists i :: 0 <= i < |urls| && c in loader(urls[i]).classNames)
      ensures c in Flatten(parts).classNames
    {
      var i :| 0 <= i < |urls| && c in loader(urls[i]).classNames;
      assert c in parts[i].classNames;
    }
  }

  /** `urls.map(loader)`. */
  function LoadEach<Url>(urls: seq<Url>, loader: Url -> ObjectSymbols): (r: seq<ObjectSymbols>)
    ensures |r| == |urls|
    ensures forall i :: 0 <= i < |urls| ==> r[i] == loader(urls[i])
  {
    seq(|urls|, i requires 0 <= i < |urls| => loader(urls[i]))
  }

  /** Flattening two lists of parts one after the other unites their flattenings. */
  lemma {:induction false} FlattenConcat(a: seq<ObjectSymbols>, b: seq<ObjectSymbols>)
    ensures Flatten(a + b).selectors == Flatten(a).selectors + Flatten(b).selectors
    ensures Flatten(a + b).classNames == Flatten(a).classNames + Flatten(b).classNames
    decreases |a|
  {
    if a == [] {
      assert a + b == b;
    } else {
      assert (a + b)[1..] == a[1..] + b;
      FlattenConcat(a[1..], b);
    }
  }

  /** `ObfuscationSymbols.buildFor(obfuscationPaths:loader:sourceSymbolsLoader:symbolListLoader:skippedSymbolsSources:skippedSymbolsLists:objcOptions:)`:
      load, then classify. The run aborts when the symbols of an image cannot be loaded or an
      obfuscable image has two trie-carrying slices of one architecture. */
  function BuildFor<Url(!new), Trie(==, !new)>(paths: PathsSnapshot<Url>, loaders: Loaders<Url, Trie>,
                                             skippedSymbolsSources: seq<Url>, skippedSymbolsLists: seq<Url>,
                                             options: ObjcOptions, naming: Naming)
    : (r: Result<ObfuscationSymbols<Url, Trie>, SymbolsError>)
    ensures r.Ok? <==>
      && (forall url :: url in paths.unobfuscableDependencies + paths.obfuscableImages ==> loaders.load(url).Some?)
      && (forall url :: url in paths.obfuscableImages ==> DistinctKeys(TriePairs(loaders.load(url).value)))
    ensures r.Fatal? ==> r.error == UnloadableImage || r.error == DuplicatedCpuId
    ensures r.Ok? ==> Classify(LoadedFor(paths, loaders, skippedSymbolsSources, skippedSymbolsLists), options, naming) == r
  {
    var skipped := SkippedSymbols(skippedSymbolsSources, skippedSymbolsLists, loaders);
    var system :- LoadSystemSources(paths.unobfuscableDependencies, loaders.load);
    var user :- LoadUserSources(paths.obfuscableImages, loaders.load);
    var header := HeaderSymbols(paths.systemFrameworks, loaders.loadFromDirectory);
    Classify(Loaded(user, system, header, skipped), options, naming)
  }

  /** What this `buildFor` has loaded once every image has loaded. */
  function LoadedFor<Url(!new), Trie(==, !new)>(paths: PathsSnapshot<Url>, loaders: Loaders<Url, Trie>,
                                              skippedSymbolsSources: seq<Url>, skippedSymbolsLists: seq<Url>): Loaded<Url, Trie>
    requires forall url :: url in paths.unobfuscableDependencies + paths.obfuscableImages ==> loaders.load(url).Some?
  {
    Loaded(
      map url | url in paths.obfuscableImages :: loaders.load(url).value,
      LoadSystemSources(paths.unobfuscableDependencies, loaders.load).value,
      HeaderSymbols(paths.systemFrameworks, loaders.loadFromDirectory),
      SkippedSymbols(skippedSymbolsSources, skippedSymbolsLists, loaders))
  }

  /** Whatever a skip source, a skip list, a framework header or an unobfuscable dependency
      declares keeps its name: every such selector and class is blacklisted. */
  lemma SkippedSymbolsBlacklisted<Url(!new), Trie(!new)>(paths: PathsSnapshot<Url>, loaders: Loaders<Url, Trie>,
                                                         sources: seq<Url>, lists: seq<Url>,
                                                         options: ObjcOptions, naming: Naming)
    requires BuildFor(paths, loaders, sources, lists, options, naming).Ok?
    ensures var blacklist := BuildFor(paths, loaders, sources, lists, options, naming).value.blacklist;
      && (forall i, s :: 0 <= i < |sources| && s in loaders.loadFromDirectory(sources[i]).selectors ==> s in blacklist.selectors)
      && (forall i, c :: 0 <= i < |sources| && c in loaders.loadFromDirectory(sources[i]).classNames ==> c in blacklist.classes)
      && (forall j, s :: 0 <= j < |lists| && s in loaders.loadFromTextFile(lists[j]).selectors ==> s in blacklist.selectors)
      && (forall j, c :: 0 <= j < |lists| && c in loaders.loadFromTextFile(lists[j]).classNames ==> c in blacklist.classes)
      && (forall url, s :: url in paths.systemFrameworks && s in loaders.loadFromDirectory(url).selectors ==> s in blacklist.selectors)
      && (forall url, c :: url in paths.systemFrameworks && c in loaders.loadFromDirectory(url).classNames ==> c in blacklist.classes)
      && (forall url, src :: url in paths.unobfuscableDependencies && src in loaders.load(url).value ==>
            src.selectors + src.cstrings <= blacklist.selectors && src.classNames + src.cstrings <= blacklist.classes)
  {
    var l := LoadedFor(paths, loaders, sources, lists);
    BlacklistCoversSystemSelectors(l, options, naming);
    BlacklistCoversSystemClasses(l, options, naming);
  }
}
