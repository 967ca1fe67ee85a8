/** The sample project of the `buildFor(obfuscationPaths:...)` tests: two obfuscable images
    (`/tmp/ob1` with two slices, `/tmp/ob2` with one), two unobfuscable dependencies, two system
    frameworks and a skip list, classified by the earlier target's `buildFor`. URLs are their
    paths and tries are their labels. */
module BuildingFixture {
  import opened Wrappers
  import opened Strings
  import opened Dictionaries
  import opened Classification
  import opened LegacySymbolsBuilding

  const Ob1First: SymbolsSource<string> :=
    SymbolsSource({"s1", "s2", "d1"}, {"c1", "c2"}, {}, {}, Cpu(0x17, 0x42), Some("ob1t1"))
  const Ob1Second: SymbolsSource<string> :=
    SymbolsSource({"s1", "s3"}, {"c1", "c3"}, {"s4", "c4"}, {}, Cpu(0x17, 0x43), Some("ob1t2"))
  const Ob2Only: SymbolsSource<string> :=
    SymbolsSource({"s1", "s2", "s5", "s6", "s7"}, {"c1", "c2", "c5", "c6", "c7"}, {}, {"d1"}, Cpu(0x17, 0x42), Some("ob2"))
  const X1Only: SymbolsSource<string> :=
    SymbolsSource({"s2"}, {"c2"}, {}, {}, Cpu(0, 0), None)
  const X2Only: SymbolsSource<string> :=
    SymbolsSource({"s5"}, {"c5"}, {"s6", "c6"}, {}, Cpu(0, 0), None)

  const SamplePaths: PathsSnapshot<string> := PathsSnapshot(
    {"/tmp/ob1", "/tmp/ob2"},
    {"/tmp/x1", "/tmp/x2"},
    {"/tmp/sys1.framework", "/tmp/sys2.framework"})

  /** The test loader: the slices registered for each path; any other path throws. */
  function LoadSample(url: string): Option<seq<SymbolsSource<string>>> {
    if url == "/tmp/ob1" then Some([Ob1First, Ob1Second])
    else if url == "/tmp/ob2" then Some([Ob2Only])
    else if url == "/tmp/x1" then Some([X1Only])
    else if url == "/tmp/x2" then Some([X2Only])
    else None
  }

  /** The test header loader: one selector and one class per framework. */
  function ForceLoadSample(url: string): ObjectSymbols {
    if url == "/tmp/sys1.framework" then ObjectSymbols({"sys1s"}, {"sys1c"})
    else if url == "/tmp/sys2.framework" then ObjectSymbols({"sys2s"}, {"sys2c"})
    else ObjectSymbols({}, {})
  }

  const SampleLoaders: LegacyLoaders<string, string> := LegacyLoaders(LoadSample, ForceLoadSample)

  /** `ObjectSymbols.sample`, the skip list of the tests. */
  const SampleSkipped: ObjectSymbols := ObjectSymbols({"sourceSelector"}, {"sourceClass"})

  /** `capitalizedOnFirstLetter` on ASCII names: the first letter upper-cased. */
  function Capitalize(s: string): (r: string)
    ensures |r| == |s|
  {
    if s == "" then "" else [UpperAscii(s[0])] + s[1..]
  }

  /** The three expressions of the tests: `^c[17]$` and `^s[17]$` match exactly the two names they
      spell out, and `notexisting`, which has no metacharacters, matches where it occurs. */
  predicate MatchesSample(pattern: Pattern, name: string) {
    if pattern == "^c[17]$" then name == "c1" || name == "c7"
    else if pattern == "^s[17]$" then name == "s1" || name == "s7"
    else Occurs(pattern, name)
  }

  /** The pattern occurs somewhere in the name. */
  predicate Occurs(pattern: string, name: string)
    decreases |name|
  {
    if |name| < |pattern| then false
    else name[..|pattern|] == pattern || (name != [] && Occurs(pattern, name[1..]))
  }

  /** The collaborators of the tests; the runtime's own selectors stay a parameter. */
  function SampleNaming(libobjc: set<string>): Naming {
    Naming(Capitalize, libobjc, MatchesSample)
  }

  /** What `buildFor` loads for the sample project. */
  const SampleLoaded: Loaded<string, string> := Loaded(
    map["/tmp/ob1" := [Ob1First, Ob1Second], "/tmp/ob2" := [Ob2Only]],
    {X1Only, X2Only},
    ObjectSymbols({"sys1s", "sys2s"}, {"sys1c", "sys2c"}),
    SampleSkipped)

  const SampleUserSelectors: set<string> := {"s1", "s2", "s3", "s5", "s6", "s7", "d1"}
  const SampleUserClasses: set<string> := {"c1", "c2", "c3", "c5", "c6", "c7"}
  const SampleGetters: set<string> :=
    {"d1", "s2", "s5", "s4", "c4", "s6", "c6", "sys1s", "sys2s", "sourceSelector"}
  const SampleSetters: set<string> :=
    {"setD1:", "setS2:", "setS5:", "setS4:", "setC4:", "setS6:", "setC6:", "setSys1s:", "setSys2s:", "setSourceSelector:"}
  const SampleBlacklistSelectors: set<string> :=
    {"d1", "setD1:", "s2", "setS2:", "s5", "setS5:", "s4", "setS4:", "c4", "setC4:", "s6", "setS6:", "c6", "setC6:",
     "sys1s", "setSys1s:", "sys2s", "setSys2s:", "sourceSelector", "setSourceSelector:"}
  const SampleBlacklistClasses: set<string> := {"c2", "c5", "s4", "c4", "s6", "c6", "sys1c", "sys2c", "sourceClass"}

  /** Each obfuscable image of the sample has one trie per architecture. */
  lemma SampleTriePairs()
    ensures TriePairs([Ob1First, Ob1Second]) == [(0x17_0000_0042, "ob1t1"), (0x17_0000_0043, "ob1t2")]
    ensures TriePairs([Ob2Only]) == [(0x17_0000_0042, "ob2")]
    ensures DistinctKeys(TriePairs([Ob1First, Ob1Second])) && DistinctKeys(TriePairs([Ob2Only]))
  {
    assert [Ob1First, Ob1Second][1..] == [Ob1Second];
    assert [Ob1Second][1..] == [];
    assert [Ob2Only][1..] == [];
  }

  /** The unobfuscable dependencies of the sample load to their one slice each. */
  lemma SampleSystemSources()
    ensures LoadSystemSources(SamplePaths.unobfuscableDependencies, LoadSample).Ok?
    ensures LoadSystemSources(SamplePaths.unobfuscableDependencies, LoadSample).value == {X1Only, X2Only}
  {
    var system := LoadSystemSources(SamplePaths.unobfuscableDependencies, LoadSample);
    assert system.Ok?;
    forall src | src in system.value ensures src == X1Only || src == X2Only {
      var url :| url in SamplePaths.unobfuscableDependencies && src in LoadSample(url).value;
    }
    assert X1Only in LoadSample("/tmp/x1").value;
    assert X2Only in LoadSample("/tmp/x2").value;
  }

  /** The frameworks of the sample declare one selector and one class each. */
  lemma SampleHeaders()
    ensures HeaderSymbols(SamplePaths.systemFrameworks, ForceLoadSample) == ObjectSymbols({"sys1s", "sys2s"}, {"sys1c", "sys2c"})
  {
    assert "sys1s" in ForceLoadSample("/tmp/sys1.framework").selectors;
    assert "sys2s" in ForceLoadSample("/tmp/sys2.framework").selectors;
    assert "sys1c" in ForceLoadSample("/tmp/sys1.framework").classNames;
    assert "sys2c" in ForceLoadSample("/tmp/sys2.framework").classNames;
  }

  /** Every image of the sample loads, and no obfuscable image repeats an architecture. */
  lemma SampleLoads()
    ensures forall url :: url in SamplePaths.unobfuscableDependencies + SamplePaths.obfuscableImages ==> SampleLoaders.load(url).Some?
    ensures forall url :: url in SamplePaths.obfuscableImages ==> DistinctKeys(TriePairs(SampleLoaders.load(url).value))
  {
    SampleTriePairs();
  }

  /** What `buildFor` loads for the sample is `SampleLoaded`. */
  lemma SampleLoadedFor()
    requires forall url :: url in SamplePaths.unobfuscableDependencies + SamplePaths.obfuscableImages ==> SampleLoaders.load(url).Some?
    ensures LoadedFor(SamplePaths, SampleLoaders, SampleSkipped) == SampleLoaded
  {
    SampleSystemSources();
    SampleHeaders();
    var l := LoadedFor(SamplePaths, SampleLoaders, SampleSkipped);
    assert l.userSourcesPerPath == SampleLoaded.userSourcesPerPath;
  }

  /** The sample classifies without error: no image repeats an architecture. */
  lemma SampleClassifies(options: ObjcOptions, naming: Naming)
    ensures Classify(SampleLoaded, options, naming).Ok?
  {
    SampleTriePairs();
    assert forall url :: url in SampleLoaded.userSourcesPerPath ==> DistinctKeys(TriePairs(SampleLoaded.userSourcesPerPath[url]));
  }

  /** `buildFor` on the sample loads without error and classifies what `SampleLoaded` holds. */
  lemma SampleBuildsFromLoaded(options: ObjcOptions, naming: Naming)
    ensures BuildFor(SamplePaths, SampleLoaders, SampleSkipped, options, naming) == Classify(SampleLoaded, options, naming)
  {
    SampleLoads();
    SampleLoadedFor();
  }

  /** The slices of the two obfuscable images. */
  lemma SampleUserSources()
    ensures UserSources(SampleLoaded) == {Ob1First, Ob1Second, Ob2Only}
  {
    var m := SampleLoaded.userSourcesPerPath;
    assert Ob1First in m["/tmp/ob1"] && Ob1Second in m["/tmp/ob1"] && Ob2Only in m["/tmp/ob2"];
  }

  /** Collecting over three slices unites what each of them holds. */
  lemma CollectOfThree(a: SymbolsSource<string>, b: SymbolsSource<string>, c: SymbolsSource<string>)
    ensures forall part: Part :: Collect({a, b, c}, part) == PartOf(a, part) + PartOf(b, part) + PartOf(c, part)
  {
    forall part: Part
      ensures Collect({a, b, c}, part) == PartOf(a, part) + PartOf(b, part) + PartOf(c, part)
    {
      forall x | x in Collect({a, b, c}, part) ensures x in PartOf(a, part) + PartOf(b, part) + PartOf(c, part) {
        var src :| src in {a, b, c} && x in PartOf(src, part);
      }
      forall x | x in PartOf(a, part) + PartOf(b, part) + PartOf(c, part) ensures x in Collect({a, b, c}, part) {
        if x in PartOf(a, part) {
          assert a in {a, b, c};
        } else if x in PartOf(b, part) {
          assert b in {a, b, c};
        } else {
          assert c in {a, b, c};
        }
      }
    }
  }

  /** Collecting over two slices unites what each of them holds. */
  lemma CollectOfTwo(a: SymbolsSource<string>, b: SymbolsSource<string>)
    ensures forall part: Part :: Collect({a, b}, part) == PartOf(a, part) + PartOf(b, part)
  {
    forall part: Part
      ensures Collect({a, b}, part) == PartOf(a, part) + PartOf(b, part)
    {
      forall x | x in Collect({a, b}, part) ensures x in PartOf(a, part) + PartOf(b, part) {
        var src :| src in {a, b} && x in PartOf(src, part);
      }
      forall x | x in PartOf(a, part) + PartOf(b, part) ensures x in Collect({a, b}, part) {
        if x in PartOf(a, part) {
          assert a in {a, b};
        } else {
          assert b in {a, b};
        }
      }
    }
  }

  /** The selectors the obfuscable images declare. */
  lemma UserSelectorsOfSample()
    ensures UserSelectors(SampleLoaded) == SampleUserSelectors
  {
    SampleUserSources();
    CollectOfThree(Ob1First, Ob1Second, Ob2Only);
  }

  /** The classes the obfuscable images declare. */
  lemma UserClassesOfSample()
    ensures UserClasses(SampleLoaded) == SampleUserClasses
  {
    SampleUserSources();
    CollectOfThree(Ob1First, Ob1Second, Ob2Only);
  }

  /** The getters of a load with two dependency slices and three user slices, spelt out. */
  lemma GettersOfFiveSlices(l: Loaded<string, string>, a: SymbolsSource<string>, b: SymbolsSource<string>,
                            p: SymbolsSource<string>, q: SymbolsSource<string>, r: SymbolsSource<string>)
    requires l.systemSources == {a, b} && UserSources(l) == {p, q, r}
    ensures BlacklistGetters(l) ==
      l.systemHeaderSymbols.selectors
      + (a.selectors + b.selectors) + (a.cstrings + b.cstrings)
      + (p.dynamicPropertyNames + q.dynamicPropertyNames + r.dynamicPropertyNames)
      + (p.cstrings + q.cstrings + r.cstrings)
      + l.skippedSymbols.selectors
  {
    CollectOfTwo(a, b);
    CollectOfThree(p, q, r);
  }

  /** The blacklisted getters of the sample: dynamic properties, C strings, the selectors of the
      dependencies, of the framework headers and of the skip list. */
  lemma GettersOfSample()
    ensures BlacklistGetters(SampleLoaded) == SampleGetters
  {
    SampleUserSources();
    GettersOfFiveSlices(SampleLoaded, X1Only, X2Only, Ob1First, Ob1Second, Ob2Only);
    SampleGettersSpelt();
  }

  lemma SampleGettersSpelt()
    ensures {"sys1s", "sys2s"} + ({"s2"} + {"s5"}) + ({} + {"s6", "c6"}) + ({} + {} + {"d1"})
            + ({} + {"s4", "c4"} + {}) + {"sourceSelector"} == SampleGetters
  {
  }

  /** The setter names of the sample's two-letter getters. */
  lemma ShortSetterNames(naming: Naming)
    requires naming.capitalizedOnFirstLetter == Capitalize
    ensures AsSetter("d1", naming) == "setD1:" && AsSetter("s2", naming) == "setS2:"
    ensures AsSetter("s5", naming) == "setS5:" && AsSetter("s4", naming) == "setS4:"
    ensures AsSetter("c4", naming) == "setC4:" && AsSetter("s6", naming) == "setS6:"
    ensures AsSetter("c6", naming) == "setC6:"
  {
  }

  /** The setter names of the sample's framework getters. */
  lemma FrameworkSetterNames(naming: Naming)
    requires naming.capitalizedOnFirstLetter == Capitalize
    ensures AsSetter("sys1s", naming) == "setSys1s:" && AsSetter("sys2s", naming) == "setSys2s:"
  {
  }

  /** The setter name of the skip list's getter. */
  lemma SkippedSetterName(naming: Naming)
    requires naming.capitalizedOnFirstLetter == Capitalize
    ensures AsSetter("sourceSelector", naming) == "setSourceSelector:"
  {
  }

  /** Each getter of the sample has its setter among `SampleSetters`. */
  lemma SetterOfSampleGetter(g: string, naming: Naming)
    requires naming.capitalizedOnFirstLetter == Capitalize
    requires g in SampleGetters
    ensures AsSetter(g, naming) in SampleSetters
  {
    ShortSetterNames(naming);
    FrameworkSetterNames(naming);
    SkippedSetterName(naming);
  }

  /** The setters of the sample's getters. */
  lemma SettersOfSample(naming: Naming)
    requires naming.capitalizedOnFirstLetter == Capitalize
    ensures BlacklistSetters(SampleGetters, naming) == SampleSetters
  {
    var r := BlacklistSetters(SampleGetters, naming);
    forall x | x in r ensures x in SampleSetters {
      var g :| g in SampleGetters && x == AsSetter(g, naming);
      SetterOfSampleGetter(g, naming);
    }
    ShortSetterNames(naming);
    FrameworkSetterNames(naming);
    SkippedSetterName(naming);
    assert SampleSetters <= r;
  }

  /** The classes a load with two dependency slices and three user slices blacklists, spelt out. */
  lemma ClassesOfFiveSlices(l: Loaded<string, string>, a: SymbolsSource<string>, b: SymbolsSource<string>,
                            p: SymbolsSource<string>, q: SymbolsSource<string>, r: SymbolsSource<string>,
                            options: ObjcOptions, naming: Naming)
    requires l.systemSources == {a, b} && UserSources(l) == {p, q, r}
    ensures BlacklistClasses(l, options, naming) ==
      l.systemHeaderSymbols.classNames
      + (a.classNames + b.classNames) + (a.cstrings + b.cstrings)
      + (p.cstrings + q.cstrings + r.cstrings)
      + l.skippedSymbols.classNames
      + (set c | c in options.classesBlacklist)
      + Matching(UserClasses(l), options.classesBlacklistRegex, naming)
  {
    CollectOfTwo(a, b);
    CollectOfThree(p, q, r);
  }

  lemma SampleClassesSpelt()
    ensures {"sys1c", "sys2c"} + ({"c2"} + {"c5"}) + ({} + {"s6", "c6"}) + ({} + {"s4", "c4"} + {}) + {"sourceClass"}
         == SampleBlacklistClasses
  {
  }

  /** The sample's blacklisted classes: its fixed part and what the options add. */
  lemma BlacklistClassesOfSample(options: ObjcOptions, naming: Naming)
    ensures BlacklistClasses(SampleLoaded, options, naming) ==
      SampleBlacklistClasses + (set c | c in options.classesBlacklist)
      + Matching(SampleUserClasses, options.classesBlacklistRegex, naming)
  {
    SampleUserSources();
    UserClassesOfSample();
    ClassesOfFiveSlices(SampleLoaded, X1Only, X2Only, Ob1First, Ob1Second, Ob2Only, options, naming);
    SampleClassesSpelt();
  }

  /** The blacklisted selectors of a load, by their five sources. */
  lemma SelectorsSpeltOut(l: Loaded<string, string>, options: ObjcOptions, naming: Naming)
    ensures BlacklistSelectors(l, options, naming) ==
      BlacklistGetters(l) + BlacklistSetters(BlacklistGetters(l), naming) + naming.libobjcSelectors
      + (set s | s in options.selectorsBlacklist) + Matching(UserSelectors(l), options.selectorsBlacklistRegex, naming)
  {
  }

  lemma SampleSelectorsSpelt()
    ensures SampleGetters + SampleSetters == SampleBlacklistSelectors
  {
  }

  /** The sample's blacklisted selectors: its fixed part, the runtime's selectors and what the
      options add. */
  lemma BlacklistSelectorsOfSample(options: ObjcOptions, libobjc: set<string>)
    ensures BlacklistSelectors(SampleLoaded, options, SampleNaming(libobjc)) ==
      SampleBlacklistSelectors + libobjc + (set s | s in options.selectorsBlacklist)
      + Matching(SampleUserSelectors, options.selectorsBlacklistRegex, SampleNaming(libobjc))
  {
    var naming := SampleNaming(libobjc);
    SelectorsSpeltOut(SampleLoaded, options, naming);
    GettersOfSample();
    SettersOfSample(naming);
    UserSelectorsOfSample();
    SampleSelectorsSpelt();
  }

  /** A name shorter than a pattern does not contain it. */
  lemma ShortNamesLackPattern(pattern: string, name: string)
    requires |name| < |pattern|
    ensures !Occurs(pattern, name)
  {
  }

  /** `^c[17]$` and `notexisting` pick `c1` and `c7` out of the sample's classes. */
  lemma ClassRegexesOnSample(libobjc: set<string>)
    ensures Matching(SampleUserClasses, ["^c[17]$", "notexisting"], SampleNaming(libobjc)) == {"c1", "c7"}
  {
    var naming := SampleNaming(libobjc);
    var regexes := ["^c[17]$", "notexisting"];
    forall x | x in SampleUserClasses ensures naming.matches(regexes[1], x) == false {
      ShortNamesLackPattern(regexes[1], x);
    }
    assert naming.matches(regexes[0], "c1") && naming.matches(regexes[0], "c7");
  }

  /** `^s[17]$` and `notexisting` pick `s1` and `s7` out of the sample's selectors. */
  lemma SelectorRegexesOnSample(libobjc: set<string>)
    ensures Matching(SampleUserSelectors, ["^s[17]$", "notexisting"], SampleNaming(libobjc)) == {"s1", "s7"}
  {
    var naming := SampleNaming(libobjc);
    var regexes := ["^s[17]$", "notexisting"];
    forall x | x in SampleUserSelectors ensures naming.matches(regexes[1], x) == false {
      ShortNamesLackPattern(regexes[1], x);
    }
    assert naming.matches(regexes[0], "s1") && naming.matches(regexes[0], "s7");
  }

  /** The sample's blacklisted selectors under the given options. */
  function ExpectedBlacklistSelectors(options: ObjcOptions, libobjc: set<string>): set<string> {
    SampleBlacklistSelectors + libobjc + (set s | s in options.selectorsBlacklist)
    + Matching(SampleUserSelectors, options.selectorsBlacklistRegex, SampleNaming(libobjc))
  }

  /** The sample's blacklisted classes under the given options. */
  function ExpectedBlacklistClasses(options: ObjcOptions, libobjc: set<string>): set<string> {
    SampleBlacklistClasses + (set c | c in options.classesBlacklist)
    + Matching(SampleUserClasses, options.classesBlacklistRegex, SampleNaming(libobjc))
  }

  /** The export tries the tests expect: two for `/tmp/ob1`, one for `/tmp/ob2`, keyed by architecture. */
  const ExpectedTries: map<string, map<CpuId, string>> := map[
    "/tmp/ob1" := map[0x17_0000_0042 := "ob1t1", 0x17_0000_0043 := "ob1t2"],
    "/tmp/ob2" := map[0x17_0000_0042 := "ob2"]]

  /** What `buildFor` returns for the sample, written out. */
  function Expected(options: ObjcOptions, libobjc: set<string>): ObfuscationSymbols<string, string> {
    var bs := ExpectedBlacklistSelectors(options, libobjc);
    var bc := ExpectedBlacklistClasses(options, libobjc);
    ObfuscationSymbols(
      ObjCSymbols(SampleUserSelectors - bs, SampleUserClasses - bc),
      ObjCSymbols(bs, bc),
      ObjCSymbols(SampleUserSelectors * bs, SampleUserClasses * bc),
      ExpectedTries)
  }

  /** A classification is known once the user symbols, the blacklists and the tries are. */
  lemma ClassifiedFromParts(l: Loaded<string, string>, options: ObjcOptions, naming: Naming,
                            us: set<string>, uc: set<string>, bs: set<string>, bc: set<string>,
                            tries: map<string, map<CpuId, string>>)
    requires ExportTries(l.userSourcesPerPath) == Ok(tries)
    requires UserSelectors(l) == us && UserClasses(l) == uc
    requires BlacklistSelectors(l, options, naming) == bs && BlacklistClasses(l, options, naming) == bc
    ensures Classify(l, options, naming) ==
      Ok(ObfuscationSymbols(ObjCSymbols(us - bs, uc - bc), ObjCSymbols(bs, bc), ObjCSymbols(us * bs, uc * bc), tries))
  {
  }

  /** A map is determined by the pairs it holds exactly. */
  lemma HoldsExactlyDetermines<K, V>(m: map<K, V>, m': map<K, V>, pairs: seq<(K, V)>)
    requires HoldsExactly(m, pairs) && HoldsExactly(m', pairs)
    ensures m == m'
  {
    forall k | k in m ensures k in m' && m'[k] == m[k] {
      assert (k, m[k]) in pairs;
    }
    forall k | k in m' ensures k in m {
      assert (k, m'[k]) in pairs;
    }
  }

  /** The export tries of two images are known once each image's tries are. */
  lemma TriesOfTwo(u1: string, u2: string, s1: seq<SymbolsSource<string>>, s2: seq<SymbolsSource<string>>,
                   m1: map<CpuId, string>, m2: map<CpuId, string>)
    requires u1 != u2
    requires ExportTries(map[u1 := s1, u2 := s2]).Ok?
    requires HoldsExactly(m1, TriePairs(s1)) && HoldsExactly(m2, TriePairs(s2))
    ensures ExportTries(map[u1 := s1, u2 := s2]).value == map[u1 := m1, u2 := m2]
  {
    var perPath := map[u1 := s1, u2 := s2];
    var expected := map[u1 := m1, u2 := m2];
    var tries := ExportTries(perPath).value;
    forall url | url in perPath ensures tries[url] == expected[url] {
      HoldsExactlyDetermines(tries[url], expected[url], TriePairs(perPath[url]));
    }
  }

  /** `/tmp/ob1` keeps the trie of each of its two slices. */
  lemma Ob1TriesHeld()
    ensures HoldsExactly(map[0x17_0000_0042 := "ob1t1", 0x17_0000_0043 := "ob1t2"], TriePairs([Ob1First, Ob1Second]))
  {
    SampleTriePairs();
  }

  /** `/tmp/ob2` keeps the trie of its slice. */
  lemma Ob2TriesHeld()
    ensures HoldsExactly(map[0x17_0000_0042 := "ob2"], TriePairs([Ob2Only]))
  {
    SampleTriePairs();
  }

  /** The tries of the sample. */
  lemma SampleTries()
    ensures ExportTries(SampleLoaded.userSourcesPerPath).Ok?
    ensures ExportTries(SampleLoaded.userSourcesPerPath).value == ExpectedTries
  {
    SampleClassifies(NoObjcOptions, SampleNaming({}));
    Ob1TriesHeld();
    Ob2TriesHeld();
    TriesOfTwo("/tmp/ob1", "/tmp/ob2", [Ob1First, Ob1Second], [Ob2Only],
               map[0x17_0000_0042 := "ob1t1", 0x17_0000_0043 := "ob1t2"], map[0x17_0000_0042 := "ob2"]);
  }

  /** Classifying the sample gives `Expected`. */
  lemma SampleClassifiesAsExpected(options: ObjcOptions, libobjc: set<string>)
    ensures Classify(SampleLoaded, options, SampleNaming(libobjc)) == Ok(Expected(options, libobjc))
  {
    var naming := SampleNaming(libobjc);
    UserSelectorsOfSample();
    UserClassesOfSample();
    BlacklistSelectorsOfSample(options, libobjc);
    BlacklistClassesOfSample(options, naming);
    SampleTries();
    ClassifiedFromParts(SampleLoaded, options, naming, SampleUserSelectors, SampleUserClasses,
                        ExpectedBlacklistSelectors(options, libobjc), ExpectedBlacklistClasses(options, libobjc),
                        ExpectedTries);
  }

  /** `buildFor` on the sample gives `Expected`. */
  lemma SampleBuildsAsExpected(options: ObjcOptions, libobjc: set<string>)
    ensures BuildFor(SamplePaths, SampleLoaders, SampleSkipped, options, SampleNaming(libobjc)) == Ok(Expected(options, libobjc))
  {
    SampleBuildsFromLoaded(options, SampleNaming(libobjc));
    SampleClassifiesAsExpected(options, libobjc);
  }

  /** Options with empty lists add nothing to either blacklist. */
  lemma EmptyOptionsAddNothing(options: ObjcOptions, naming: Naming, names: set<string>)
    ensures options.selectorsBlacklist == [] ==> (set s | s in options.selectorsBlacklist) == {}
    ensures options.classesBlacklist == [] ==> (set c | c in options.classesBlacklist) == {}
    ensures options.selectorsBlacklistRegex == [] ==> Matching(names, options.selectorsBlacklistRegex, naming) == {}
    ensures options.classesBlacklistRegex == [] ==> Matching(names, options.classesBlacklistRegex, naming) == {}
  {
  }

  /** The user selectors no image, header or skip list declares. */
  lemma UserSelectorsLeft()
    ensures SampleUserSelectors - SampleBlacklistSelectors == {"s1", "s3", "s7"}
  {
  }

  /** The user classes no image, header or skip list declares. */
  lemma UserClassesLeft()
    ensures SampleUserClasses - SampleBlacklistClasses == {"c1", "c3", "c7"}
  {
  }

  /** Without options the whitelist keeps the user symbols nothing else declares: `s1`, `s3`,
      `s7` and `c1`, `c3`, `c7` (given the runtime does not declare those selectors). */
  lemma DefaultWhitelist(libobjc: set<string>)
    requires "s1" !in libobjc && "s3" !in libobjc && "s7" !in libobjc
    ensures Expected(NoObjcOptions, libobjc).whitelist == ObjCSymbols({"s1", "s3", "s7"}, {"c1", "c3", "c7"})
  {
    EmptyOptionsAddNothing(NoObjcOptions, SampleNaming(libobjc), SampleUserSelectors);
    EmptyOptionsAddNothing(NoObjcOptions, SampleNaming(libobjc), SampleUserClasses);
    UserSelectorsLeft();
    UserClassesLeft();
    var bs := SampleBlacklistSelectors + libobjc;
    assert SampleUserSelectors - bs == (SampleUserSelectors - SampleBlacklistSelectors) - libobjc;
  }

  /** Without options the blacklist holds the dynamic property, the C strings, the dependencies'
      and frameworks' symbols, the skip list, the setters of all those selectors and the
      runtime's own selectors. */
  lemma DefaultBlacklist(libobjc: set<string>)
    ensures Expected(NoObjcOptions, libobjc).blacklist == ObjCSymbols(SampleBlacklistSelectors + libobjc, SampleBlacklistClasses)
  {
    EmptyOptionsAddNothing(NoObjcOptions, SampleNaming(libobjc), SampleUserSelectors);
    EmptyOptionsAddNothing(NoObjcOptions, SampleNaming(libobjc), SampleUserClasses);
  }

  /** The literal class blacklist `c3`, `notexisting` drops `c3` from the whitelist. */
  lemma ClassBlacklistDropsC3(libobjc: set<string>)
    ensures Expected(ObjcOptions(["c3", "notexisting"], [], [], []), libobjc).whitelist.classes == {"c1", "c7"}
  {
    var options := ObjcOptions(["c3", "notexisting"], [], [], []);
    EmptyOptionsAddNothing(options, SampleNaming(libobjc), SampleUserClasses);
    UserClassesLeft();
    assert (set c | c in options.classesBlacklist) == {"c3", "notexisting"};
    assert SampleUserClasses - (SampleBlacklistClasses + {"c3", "notexisting"})
        == (SampleUserClasses - SampleBlacklistClasses) - {"c3", "notexisting"};
  }

  /** The class expressions `^c[17]$`, `notexisting` leave only `c3` on the whitelist. */
  lemma ClassRegexKeepsC3(libobjc: set<string>)
    ensures var o := Expected(ObjcOptions([], ["^c[17]$", "notexisting"], [], []), libobjc);
      o.whitelist.classes == {"c3"} && "c1" in o.blacklist.classes && "c7" in o.blacklist.classes
  {
    var options := ObjcOptions([], ["^c[17]$", "notexisting"], [], []);
    EmptyOptionsAddNothing(options, SampleNaming(libobjc), SampleUserClasses);
    ClassRegexesOnSample(libobjc);
    UserClassesLeft();
    assert SampleUserClasses - (SampleBlacklistClasses + {"c1", "c7"})
        == (SampleUserClasses - SampleBlacklistClasses) - {"c1", "c7"};
  }

  /** The literal selector blacklist `s3`, `notexisting` drops `s3` from the whitelist. */
  lemma SelectorBlacklistDropsS3(libobjc: set<string>)
    requires "s1" !in libobjc && "s7" !in libobjc
    ensures Expected(ObjcOptions([], [], ["s3", "notexisting"], []), libobjc).whitelist.selectors == {"s1", "s7"}
  {
    var options := ObjcOptions([], [], ["s3", "notexisting"], []);
    EmptyOptionsAddNothing(options, SampleNaming(libobjc), SampleUserSelectors);
    UserSelectorsLeft();
    assert (set s | s in options.selectorsBlacklist) == {"s3", "notexisting"};
    assert SampleUserSelectors - (SampleBlacklistSelectors + libobjc + {"s3", "notexisting"})
        == ((SampleUserSelectors - SampleBlacklistSelectors) - libobjc) - {"s3", "notexisting"};
  }

  /** The selector expressions `^s[17]$`, `notexisting` leave only `s3` on the whitelist. */
  lemma SelectorRegexKeepsS3(libobjc: set<string>)
    requires "s3" !in libobjc
    ensures var o := Expected(ObjcOptions([], [], [], ["^s[17]$", "notexisting"]), libobjc);
      o.whitelist.selectors == {"s3"} && "s1" in o.blacklist.selectors && "s7" in o.blacklist.selectors
  {
    var options := ObjcOptions([], [], [], ["^s[17]$", "notexisting"]);
    EmptyOptionsAddNothing(options, SampleNaming(libobjc), SampleUserSelectors);
    SelectorRegexesOnSample(libobjc);
    UserSelectorsLeft();
    assert SampleUserSelectors - (SampleBlacklistSelectors + libobjc + {} + {"s1", "s7"})
        == ((SampleUserSelectors - SampleBlacklistSelectors) - libobjc) - {"s1", "s7"};
  }
}
