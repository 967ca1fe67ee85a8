/** `ObfuscationSymbols.buildFor` of the earlier MachObfuscator target: the caller hands over the
    symbols to skip ready-made, and the header symbols of each system framework come from
    `forceLoad(forFrameworkURL:)`. The classification itself is the one of `Classification`. */
module LegacySymbolsBuilding {
  import opened Wrappers
  import opened Dictionaries
  import opened Classification
  import SymbolsBuilding

  /** The two loaders this `buildFor` is handed; their code is not part of this model. */
  datatype LegacyLoaders<!Url, Trie(==)> = LegacyLoaders(
    load: Url -> Option<seq<SymbolsSource<Trie>>>,   // SymbolsSourceLoader.load(forURL:), None where it throws
    forceLoad: Url -> ObjectSymbols)                  // SourceSymbolsLoader.forceLoad(forFrameworkURL:)

  /** `ObfuscationSymbols.buildFor(obfuscationPaths:loader:sourceSymbolsLoader:skippedSymbols:objcOptions:)`:
      load, then classify. The run aborts when the symbols of an image cannot be loaded or an
      obfuscable image has two trie-carrying slices of one architecture. */
  function BuildFor<Url(!new), Trie(==, !new)>(paths: PathsSnapshot<Url>, loaders: LegacyLoaders<Url, Trie>,
                                             skippedSymbols: ObjectSymbols, options: ObjcOptions, naming: Naming)
    : (r: Result<ObfuscationSymbols<Url, Trie>, SymbolsError>)
    ensures r.Ok? <==>
      && (forall url :: url in paths.unobfuscableDependencies + paths.obfuscableImages ==> loaders.load(url).Some?)
      && (forall url :: url in paths.obfuscableImages ==> DistinctKeys(TriePairs(loaders.load(url).value)))
    ensures r.Fatal? ==> r.error == UnloadableImage || r.error == DuplicatedCpuId
    ensures r.Ok? ==> Classify(LoadedFor(paths, loaders, skippedSymbols), options, naming) == r
  {
    var system :- LoadSystemSources(paths.unobfuscableDependencies, loaders.load);
    var user :- LoadUserSources(paths.obfuscableImages, loaders.load);
    var header := HeaderSymbols(paths.systemFrameworks, loaders.forceLoad);
    Classify(Loaded(user, system, header, skippedSymbols), options, naming)
  }

  /** What this `buildFor` has loaded once every image has loaded. */
  function LoadedFor<Url(!new), Trie(==, !new)>(paths: PathsSnapshot<Url>, loaders: LegacyLoaders<Url, Trie>,
                                              skippedSymbols: ObjectSymbols): Loaded<Url, Trie>
    requires forall url :: url in paths.unobfuscableDependencies + paths.obfuscableImages ==> loaders.load(url).Some?
  {
    Loaded(
      map url | url in paths.obfuscableImages :: loaders.load(url).value,
      LoadSystemSources(paths.unobfuscableDependencies, loaders.load).value,
      HeaderSymbols(paths.systemFrameworks, loaders.forceLoad),
      skippedSymbols)
  }

  /** The two targets agree: handing this `buildFor` the flattened loads of the skip sources and
      skip lists, with framework headers loaded the same way, gives what the application's
      `buildFor` computes from the skip sources and lists themselves. */
  lemma AgreesWithApplication<Url(!new), Trie(!new)>(paths: PathsSnapshot<Url>, loaders: SymbolsBuilding.Loaders<Url, Trie>,
                                                     sources: seq<Url>, lists: seq<Url>,
                                                     options: ObjcOptions, naming: Naming)
    ensures BuildFor(paths, LegacyLoaders(loaders.load, loaders.loadFromDirectory),
                     SymbolsBuilding.SkippedSymbols(sources, lists, loaders), options, naming)
         == SymbolsBuilding.BuildFor(paths, loaders, sources, lists, options, naming)
  {
  }
}
