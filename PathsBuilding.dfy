/** Building `ObfuscationPaths`: the depth-first traversal of the dependency graph that starts
    at one executable (or at every executable of a directory), sorts each reached image into
    obfuscable images and unobfuscable dependencies, and records the dylib map of each image. */
module PathsBuilding {
  import opened Wrappers
  import opened Strings
  import opened Filters
  import opened DylibResolving

  datatype PathsError =
    | NotMachOFile(url: Location)                 // forExecutable on a file that is not Mach-O
    | UnresolvableDylibs(cause: ResolveError)     // resolvedDylibLocations aborted
    | DifferentResolution(image: Location)        // a revisit resolved the image differently

  /** Dylib entry -> location, per image. */
  type DylibMaps = map<Location, map<string, Location>>

  /** Every location an image of `maps` resolves to is classified. */
  ghost predicate Closed(maps: DylibMaps, classified: set<Location>) {
    forall image, location :: image in maps && location in maps[image].Values ==> location in classified
  }

  /** Some recorded image resolves to `x`. */
  ghost predicate Targeted(maps: DylibMaps, x: Location) {
    exists image :: image in maps && x in maps[image].Values
  }

  /** Every stacked image, and every image classified since `start`, is the seed or a target
      of a recorded image. */
  ghost predicate OnlyReached(stack: seq<Location>, classified: set<Location>, start: set<Location>,
                              maps: DylibMaps, executable: Location) {
    forall q :: q in stack || q in classified - start ==> q == executable || Targeted(maps, q)
  }

  /** `later` keeps every map that `earlier` recorded. */
  ghost predicate Extends(later: DylibMaps, earlier: DylibMaps) {
    forall image :: image in earlier ==> image in later && later[image] == earlier[image]
  }

  /** The system framework locations the obfuscable images refer to, once each. */
  function SystemFrameworksOf(env: Environment, obfuscable: set<Location>, maps: DylibMaps): (r: set<Location>)
    ensures forall location :: location in r <==>
      exists image, entry :: image in obfuscable && image in maps && entry in maps[image]
        && location in env.systemFrameworkLocations(entry, image)
  {
    set image, entry, location | image in obfuscable && image in maps && entry in maps[image]
      && location in env.systemFrameworkLocations(entry, image) :: location
  }

  /** `files.filter { isMachOExecutable($0) }`. */
  function Executables(env: Environment, files: seq<Location>): (r: seq<Location>)
    ensures forall f :: f in r <==> f in files && env.isMachOExecutable(f)
  {
    if files == [] then []
    else
      assert forall f :: f in files <==> f == files[0] || f in files[1..];
      (if env.isMachOExecutable(files[0]) then [files[0]] else []) + Executables(env, files[1..])
  }

  /** The listed files that are Mach-O executables. */
  function ExecutablesAmong(env: Environment, files: seq<Location>): (r: set<Location>)
    ensures forall f :: f in r <==> f in files && env.isMachOExecutable(f)
  {
    set f | f in files && env.isMachOExecutable(f)
  }

  /** The listed files whose lower-cased extension is `nib`. */
  function NibsAmong(env: Environment, files: seq<Location>): (r: set<Location>)
    ensures forall f :: f in r <==> f in files && LowercasedAscii(env.pathExtension(f)) == "nib"
  {
    set f | f in files && LowercasedAscii(env.pathExtension(f)) == "nib"
  }

  /** Some listing of a set, each element once. */
  method Listing(s: set<Location>) returns (q: seq<Location>)
    ensures |q| == |s|
    ensures forall x :: x in q <==> x in s
  {
    q := [];
    var rest := s;
    while rest != {}
      invariant rest <= s
      invariant |q| + |rest| == |s|
      invariant forall x :: x in q <==> x in s - rest
      decreases |rest|
    {
      var x :| x in rest;
      q := q + [x];
      rest := rest - {x};
    }
  }

  /** Every location a recorded image resolves to is classified or still on the stack. */
  ghost predicate PendingCovered(maps: DylibMaps, classified: set<Location>, stack: seq<Location>) {
    forall image, location :: image in maps && location in maps[image].Values ==>
      location in classified || location in stack
  }

  /** Popping `next`, recording its map `m` and pushing its unclassified targets keeps every
      target of a recorded image classified or on the stack. */
  lemma {:induction false} StepKeepsPendingCovered(maps: DylibMaps, classified: set<Location>, stack: seq<Location>,
                                                   m: map<string, Location>, pushed: seq<Location>)
    requires stack != []
    requires PendingCovered(maps, classified, stack)
    requires forall x :: x in m.Values && x !in classified + {stack[|stack| - 1]} ==> x in pushed
    ensures var next := stack[|stack| - 1];
            PendingCovered(maps[next := m], classified + {next}, stack[..|stack| - 1] + pushed)
  {
    var n := |stack| - 1;
    var next := stack[n];
    var maps' := maps[next := m];
    var stack' := stack[..n] + pushed;
    forall image, location | image in maps' && location in maps'[image].Values
      ensures location in classified + {next} || location in stack'
    {
      if image != next && location !in classified + {next} {
        assert location in stack;
        var i :| 0 <= i < |stack| && stack[i] == location;
        assert stack'[i] == location;
      }
    }
  }

  /** Obfuscable images satisfy the filter, unobfuscable ones do not, and the visited images
      are exactly those with a recorded map. */
  ghost predicate SortedBy(obfuscable: set<Location>, unobfuscable: set<Location>, maps: DylibMaps,
                           filter: Filter, fenv: FilterEnv) {
    && (forall x :: x in obfuscable ==> IsObfuscable(filter, fenv, x))
    && (forall x :: x in unobfuscable ==> !IsObfuscable(filter, fenv, x))
    && maps.Keys == obfuscable + unobfuscable
  }

  /** Sorting one more image by the filter, with its map recorded, keeps the sorting. */
  lemma SortingOneMore(obfuscable: set<Location>, unobfuscable: set<Location>, maps: DylibMaps,
                       filter: Filter, fenv: FilterEnv, next: Location, m: map<string, Location>)
    requires SortedBy(obfuscable, unobfuscable, maps, filter, fenv)
    ensures IsObfuscable(filter, fenv, next) ==> SortedBy(obfuscable + {next}, unobfuscable, maps[next := m], filter, fenv)
    ensures !IsObfuscable(filter, fenv, next) ==> SortedBy(obfuscable, unobfuscable + {next}, maps[next := m], filter, fenv)
  {
  }

  /** The number of stack entries that are already classified. */
  function ClassifiedEntries(stack: seq<Location>, classified: set<Location>): (n: nat)
    ensures n <= |stack|
  {
    if stack == [] then 0
    else ClassifiedEntries(stack[..|stack| - 1], classified) + (if stack[|stack| - 1] in classified then 1 else 0)
  }

  /** Pushing only unclassified images adds no classified entry. */
  lemma {:induction false} PushingUnclassified(stack: seq<Location>, pushed: seq<Location>, classified: set<Location>)
    requires forall x :: x in pushed ==> x !in classified
    ensures ClassifiedEntries(stack + pushed, classified) == ClassifiedEntries(stack, classified)
    decreases |pushed|
  {
    if pushed != [] {
      var init := pushed[..|pushed| - 1];
      assert (stack + pushed)[..|stack + pushed| - 1] == stack + init;
      assert pushed[|pushed| - 1] in pushed;
      PushingUnclassified(stack, init, classified);
    } else {
      assert stack + pushed == stack;
    }
  }

  /** The traversal invariant, from a state where `start` was classified and `startMaps`
      recorded: the images are sorted by the filter, every stacked image is a file, the seed is
      classified unless it is still the only entry, the new state extends the old one, and
      every stacked or newly classified image is the seed or a target of a recorded image; with
      dependencies, every target of a recorded image is classified or stacked; without them,
      the stack holds at most the seed and only the seed joins the classified images. */
  ghost predicate TraversalInvariant(obfuscable: set<Location>, unobfuscable: set<Location>, maps: DylibMaps,
                                     stack: seq<Location>, start: set<Location>, startMaps: DylibMaps,
                                     executable: Location, env: Environment, filter: Filter, fenv: FilterEnv,
                                     withDependencies: bool) {
    var classified := obfuscable + unobfuscable;
    && SortedBy(obfuscable, unobfuscable, maps, filter, fenv)
    && (forall q :: q in stack ==> q in env.files)
    && (executable in classified || stack == [executable])
    && start <= classified
    && Extends(maps, startMaps)
    && OnlyReached(stack, classified, start, maps, executable)
    && (withDependencies ==> PendingCovered(maps, classified, stack))
    && (!withDependencies ==>
          (forall q :: q in stack ==> q == executable) && |stack| <= 1 && classified <= start + {executable})
  }

  /** The state after one iteration, given the state before it: `next` (the top of `stack`) is
      sorted into `obfuscable'` or `unobfuscable'`, its map `m` is recorded (a revisit's map
      equals the recorded one), and `pushed` lists, with dependencies, the targets of `m` that
      are still unclassified. */
  ghost predicate IterationStep(obfuscable: set<Location>, unobfuscable: set<Location>, maps: DylibMaps,
                                stack: seq<Location>, env: Environment, filter: Filter, fenv: FilterEnv,
                                withDependencies: bool, obfuscable': set<Location>, unobfuscable': set<Location>,
                                m: map<string, Location>, pushed: seq<Location>) {
    && stack != []
    && var next := stack[|stack| - 1];
    && (IsObfuscable(filter, fenv, next) ==> obfuscable' == obfuscable + {next} && unobfuscable' == unobfuscable)
    && (!IsObfuscable(filter, fenv, next) ==> obfuscable' == obfuscable && unobfuscable' == unobfuscable + {next})
    && (next in maps ==> maps[next] == m)
    && m.Values <= env.files
    && (forall x :: x in pushed <==> withDependencies && x in m.Values && x !in obfuscable' + unobfuscable')
    && (!withDependencies ==> pushed == [])
  }

  /** The stack holding only the seed satisfies the invariant. */
  lemma TraversalStarts(obfuscable: set<Location>, unobfuscable: set<Location>, maps: DylibMaps,
                        executable: Location, env: Environment, filter: Filter, fenv: FilterEnv, withDependencies: bool)
    requires executable in env.files
    requires SortedBy(obfuscable, unobfuscable, maps, filter, fenv)
    requires withDependencies ==> Closed(maps, obfuscable + unobfuscable)
    ensures TraversalInvariant(obfuscable, unobfuscable, maps, [executable], obfuscable + unobfuscable, maps,
                               executable, env, filter, fenv, withDependencies)
  {
  }

  /** The outcome of traversals from the images `roots`, starting from a state where `classified0`
      was classified and `maps0` recorded: the images are sorted by the filter into two disjoint
      sets, every root is classified, nothing is forgotten, and every newly classified image is a
      root or a target of a recorded image; with dependencies, every target of a recorded image
      is classified; without them, only the roots join the classified images. */
  ghost predicate Grew(obfuscable: set<Location>, unobfuscable: set<Location>, maps: DylibMaps,
                       classified0: set<Location>, maps0: DylibMaps, roots: set<Location>,
                       filter: Filter, fenv: FilterEnv, withDependencies: bool) {
    var classified := obfuscable + unobfuscable;
    && SortedBy(obfuscable, unobfuscable, maps, filter, fenv)
    && obfuscable !! unobfuscable
    && roots <= classified
    && classified0 <= classified
    && Extends(maps, maps0)
    && (forall x :: x in classified - classified0 - roots ==> Targeted(maps, x))
    && (withDependencies ==> Closed(maps, classified))
    && (!withDependencies ==> classified == classified0 + roots)
  }

  /** Two traversals one after the other grow the state by both sets of roots. */
  lemma GrewTwice(obfuscable: set<Location>, unobfuscable: set<Location>, maps: DylibMaps,
                  obfuscable': set<Location>, unobfuscable': set<Location>, maps': DylibMaps,
                  classified0: set<Location>, maps0: DylibMaps, roots: set<Location>, roots': set<Location>,
                  filter: Filter, fenv: FilterEnv, withDependencies: bool)
    requires Grew(obfuscable, unobfuscable, maps, classified0, maps0, roots, filter, fenv, withDependencies)
    requires Grew(obfuscable', unobfuscable', maps', obfuscable + unobfuscable, maps, roots', filter, fenv, withDependencies)
    ensures Grew(obfuscable', unobfuscable', maps', classified0, maps0, roots + roots', filter, fenv, withDependencies)
  {
    var classified, classified' := obfuscable + unobfuscable, obfuscable' + unobfuscable';
    forall x | x in classified' - classified0 - (roots + roots') ensures Targeted(maps', x) {
      if x in classified {
        TargetedGrows(maps, maps', x);
      }
    }
  }

  /** A target of a recorded image stays one when the maps grow. */
  lemma TargetedGrows(maps: DylibMaps, maps': DylibMaps, x: Location)
    requires Extends(maps', maps) && Targeted(maps, x)
    ensures Targeted(maps', x)
  {
    var image :| image in maps && x in maps[image].Values;
    assert image in maps' && maps'[image] == maps[image];
  }

  /** With the stack empty, the seed is classified, the images are sorted, every target of a
      recorded image is classified (with dependencies) or only the seed was added (without). */
  lemma TraversalEnds(obfuscable: set<Location>, unobfuscable: set<Location>, maps: DylibMaps,
                      start: set<Location>, startMaps: DylibMaps,
                      executable: Location, env: Environment, filter: Filter, fenv: FilterEnv, withDependencies: bool)
    requires TraversalInvariant(obfuscable, unobfuscable, maps, [], start, startMaps, executable, env, filter, fenv, withDependencies)
    ensures Grew(obfuscable, unobfuscable, maps, start, startMaps, {executable}, filter, fenv, withDependencies)
  {
    assert obfuscable !! unobfuscable by {
      forall x | x in obfuscable ensures x !in unobfuscable {
        assert IsObfuscable(filter, fenv, x);
      }
    }
  }

  /** One iteration keeps the traversal invariant. */
  lemma StepKeepsTraversal(obfuscable: set<Location>, unobfuscable: set<Location>, maps: DylibMaps,
                           stack: seq<Location>, start: set<Location>, startMaps: DylibMaps,
                           executable: Location, env: Environment, filter: Filter, fenv: FilterEnv,
                           withDependencies: bool,
                           obfuscable': set<Location>, unobfuscable': set<Location>,
                           m: map<string, Location>, pushed: seq<Location>)
    requires TraversalInvariant(obfuscable, unobfuscable, maps, stack, start, startMaps, executable, env, filter, fenv, withDependencies)
    requires IterationStep(obfuscable, unobfuscable, maps, stack, env, filter, fenv, withDependencies, obfuscable', unobfuscable', m, pushed)
    ensures TraversalInvariant(obfuscable', unobfuscable', maps[stack[|stack| - 1] := m], stack[..|stack| - 1] + pushed,
                               start, startMaps, executable, env, filter, fenv, withDependencies)
  {
    var n := |stack| - 1;
    var next := stack[n];
    var classified := obfuscable + unobfuscable;
    StepKeepsSorting(obfuscable, unobfuscable, maps, stack, start, startMaps, executable, env, filter, fenv,
                     withDependencies, obfuscable', unobfuscable', m, pushed);
    StepKeepsTargeted(classified, obfuscable' + unobfuscable', maps, stack, start, executable, m, pushed);
    if withDependencies {
      StepKeepsPendingCovered(maps, classified, stack, m, pushed);
    } else {
      SeedOnlyStep(stack, pushed, executable);
    }
  }

  /** One iteration keeps the images sorted, the stack inside the files, the seed classified
      once popped and every earlier map. */
  lemma StepKeepsSorting(obfuscable: set<Location>, unobfuscable: set<Location>, maps: DylibMaps,
                         stack: seq<Location>, start: set<Location>, startMaps: DylibMaps,
                         executable: Location, env: Environment, filter: Filter, fenv: FilterEnv,
                         withDependencies: bool,
                         obfuscable': set<Location>, unobfuscable': set<Location>,
                         m: map<string, Location>, pushed: seq<Location>)
    requires TraversalInvariant(obfuscable, unobfuscable, maps, stack, start, startMaps, executable, env, filter, fenv, withDependencies)
    requires IterationStep(obfuscable, unobfuscable, maps, stack, env, filter, fenv, withDependencies, obfuscable', unobfuscable', m, pushed)
    ensures var next := stack[|stack| - 1];
            var stack' := stack[..|stack| - 1] + pushed;
            var classified' := obfuscable' + unobfuscable';
            && classified' == obfuscable + unobfuscable + {next}
            && SortedBy(obfuscable', unobfuscable', maps[next := m], filter, fenv)
            && (forall q :: q in stack' ==> q in env.files)
            && (executable in classified' || stack' == [executable])
            && start <= classified'
            && Extends(maps[next := m], startMaps)
  {
    var next := stack[|stack| - 1];
    SortingOneMore(obfuscable, unobfuscable, maps, filter, fenv, next, m);
    ExtendsOneMore(maps, startMaps, next, m);
    StackStaysInFiles(stack, pushed, env.files, m.Values);
    if !withDependencies {
      SeedOnlyStep(stack, pushed, executable);
    }
  }

  /** Popping `next`, recording its map `m` and pushing targets of `m` keeps every stacked or
      newly classified image the seed or a target of a recorded image. */
  lemma StepKeepsTargeted(classified: set<Location>, classified': set<Location>, maps: DylibMaps,
                          stack: seq<Location>, start: set<Location>,
                          executable: Location, m: map<string, Location>, pushed: seq<Location>)
    requires stack != [] && classified' == classified + {stack[|stack| - 1]}
    requires OnlyReached(stack, classified, start, maps, executable)
    requires stack[|stack| - 1] in maps ==> maps[stack[|stack| - 1]] == m
    requires forall x :: x in pushed ==> x in m.Values
    ensures OnlyReached(stack[..|stack| - 1] + pushed, classified', start, maps[stack[|stack| - 1] := m], executable)
  {
    var next := stack[|stack| - 1];
    var maps' := maps[next := m];
    ExtendsOneMore(maps, maps, next, m);
    forall q | q in stack[..|stack| - 1] + pushed || q in classified' - start
      ensures q == executable || Targeted(maps', q)
    {
      if q in pushed {
        assert next in maps' && q in maps'[next].Values;
      } else {
        assert q in stack || q in classified - start;
        if q != executable {
          TargetedGrows(maps, maps', q);
        }
      }
    }
  }

  /** Without dependencies the only iteration pops the seed and pushes nothing. */
  lemma SeedOnlyStep(stack: seq<Location>, pushed: seq<Location>, executable: Location)
    requires stack != [] && |stack| <= 1 && pushed == []
    requires forall q :: q in stack ==> q == executable
    ensures stack == [executable]
    ensures stack[..|stack| - 1] + pushed == []
  {
    assert stack[0] in stack;
  }

  /** Recording a map for an image without one, or the same map again, keeps every earlier map. */
  lemma ExtendsOneMore(maps: DylibMaps, startMaps: DylibMaps, next: Location, m: map<string, Location>)
    requires Extends(maps, startMaps)
    requires next in maps ==> maps[next] == m
    ensures Extends(maps[next := m], startMaps)
  {
  }

  /** Popping and pushing targets that are files keeps the stack inside the files. */
  lemma StackStaysInFiles(stack: seq<Location>, pushed: seq<Location>, files: set<Location>, targets: set<Location>)
    requires stack != []
    requires forall q :: q in stack ==> q in files
    requires targets <= files
    requires forall x :: x in pushed ==> x in targets
    ensures forall q :: q in stack[..|stack| - 1] + pushed ==> q in files
  {
    forall q | q in stack[..|stack| - 1] + pushed ensures q in files {
      if q !in pushed {
        assert q in stack[..|stack| - 1];
      }
    }
  }

  /** One iteration either classifies one more image of the finite universe or removes a
      classified entry from the stack without adding one. */
  lemma StepProgresses(obfuscable: set<Location>, unobfuscable: set<Location>, maps: DylibMaps,
                       stack: seq<Location>, env: Environment, filter: Filter, fenv: FilterEnv,
                       withDependencies: bool,
                       obfuscable': set<Location>, unobfuscable': set<Location>,
                       m: map<string, Location>, pushed: seq<Location>)
    requires forall q :: q in stack ==> q in env.files
    requires IterationStep(obfuscable, unobfuscable, maps, stack, env, filter, fenv, withDependencies, obfuscable', unobfuscable', m, pushed)
    ensures var classified := obfuscable + unobfuscable;
            var classified' := obfuscable' + unobfuscable';
            || |env.files - classified'| < |env.files - classified|
            || (classified' == classified
                && ClassifiedEntries(stack[..|stack| - 1] + pushed, classified') < ClassifiedEntries(stack, classified))
  {
    var next := stack[|stack| - 1];
    var classified := obfuscable + unobfuscable;
    assert obfuscable' + unobfuscable' == classified + {next};
    if next in classified {
      RevisitLeavesStack(stack, pushed, classified);
    } else {
      assert next in stack;
      UniverseShrinks(env.files, classified, next);
    }
  }

  /** Popping a classified entry and pushing unclassified ones lowers the number of classified
      entries. */
  lemma RevisitLeavesStack(stack: seq<Location>, pushed: seq<Location>, classified: set<Location>)
    requires stack != [] && stack[|stack| - 1] in classified
    requires forall x :: x in pushed ==> x !in classified
    ensures ClassifiedEntries(stack[..|stack| - 1] + pushed, classified) < ClassifiedEntries(stack, classified)
  {
    PushingUnclassified(stack[..|stack| - 1], pushed, classified);
  }

  /** `stack'` is `stack` with its top image popped and, with dependencies, the targets of that
      image's recorded map that are not classified pushed. */
  ghost predicate PoppedAndPushed(stack: seq<Location>, stack': seq<Location>, maps: DylibMaps,
                                  classified: set<Location>, withDependencies: bool) {
    && stack != []
    && var n := |stack| - 1;
    && stack[n] in maps
    && n <= |stack'| && stack'[..n] == stack[..n]
    && (forall x :: x in stack'[n..] <==> withDependencies && x in maps[stack[n]].Values && x !in classified)
  }

  /** Pushing the listed targets onto the popped stack gives such a stack. */
  lemma PopThenPush(stack: seq<Location>, pushed: seq<Location>, maps: DylibMaps,
                    classified: set<Location>, withDependencies: bool)
    requires stack != [] && stack[|stack| - 1] in maps
    requires forall x :: x in pushed <==>
      withDependencies && x in maps[stack[|stack| - 1]].Values && x !in classified
    ensures PoppedAndPushed(stack, stack[..|stack| - 1] + pushed, maps, classified, withDependencies)
  {
    var n := |stack| - 1;
    assert (stack[..n] + pushed)[n..] == pushed;
  }

  /** The first `i + 1` elements hold those of the first `i` and the next one. */
  lemma PrefixOneMore(s: seq<Location>, i: nat)
    requires i < |s|
    ensures forall x :: x in s[..i + 1] <==> x in s[..i] || x == s[i]
  {
    assert s[..i + 1] == s[..i] + [s[i]];
  }

  /** Classifying one more image of the finite universe leaves fewer unclassified images. */
  lemma UniverseShrinks(universe: set<Location>, classified: set<Location>, next: Location)
    requires next in universe && next !in classified
    ensures |universe - (classified + {next})| < |universe - classified|
  {
    assert universe - (classified + {next}) == (universe - classified) - {next};
  }

  /** What visiting `next` yields, given its resolution and the maps recorded so far: an aborted
      resolution aborts the run, and so does a revisit that resolves differently from the map
      recorded at the first visit. */
  function VisitOutcome(resolved: Result<map<string, Location>, ResolveError>, maps: DylibMaps, next: Location)
    : (r: Result<map<string, Location>, PathsError>)
    ensures resolved.Fatal? ==> r == Fatal(UnresolvableDylibs(resolved.error))
    ensures resolved.Ok? ==> (r.Ok? <==> next !in maps || maps[next] == resolved.value)
    ensures r.Ok? ==> r.value == resolved.value
    ensures resolved.Ok? && r.Fatal? ==> r.error == DifferentResolution(next)
  {
    match resolved
    case Fatal(e) => Fatal(UnresolvableDylibs(e))
    case Ok(m) => if next in maps && maps[next] != m then Fatal(DifferentResolution(next)) else Ok(m)
  }

  /** The rpath context that holds no rpath at all, for `loader` run on its own. */
  function Bare(loader: Location): RpathContext {
    RpathContext(loader, [])
  }

  /** Every image resolves without aborting, and the same whatever rpaths a traversal has
      gathered: an image whose nodes cannot be loaded resolves to the empty map, so this holds
      whenever no image is ambiguous and no resolution depends on the rpaths. */
  ghost predicate Unambiguous(env: Environment) {
    forall ctx, loader :: Resolution(env, ctx, loader).Ok? && Resolution(env, ctx, loader) == Resolution(env, Bare(loader), loader)
  }

  /** Every recorded map is what its image resolves to. */
  ghost predicate RecordsResolutions(env: Environment, maps: DylibMaps) {
    forall image {:trigger Resolution(env, Bare(image), image)} :: image in maps ==> Resolution(env, Bare(image), image) == Ok(maps[image])
  }

  /** The environment is unambiguous and the maps recorded so far are what their images
      resolve to. */
  ghost predicate Faithful(env: Environment, maps: DylibMaps) {
    Unambiguous(env) && RecordsResolutions(env, maps)
  }

  /** Under `Unambiguous`, a visit never aborts, and recording its map keeps the maps faithful. */
  lemma UnambiguousVisit(env: Environment, ctx: RpathContext, maps: DylibMaps, next: Location,
                         failed: bool, maps': DylibMaps)
    requires var v := VisitOutcome(Resolution(env, ctx, next), maps, next);
      (failed <==> v.Fatal?) && (!failed ==> maps' == maps[next := v.value])
    ensures Faithful(env, maps) ==> !failed && Faithful(env, maps')
  {
    if Faithful(env, maps) {
      assert Resolution(env, ctx, next).Ok? && Resolution(env, ctx, next) == Resolution(env, Bare(next), next);
    }
  }

  /** Every recorded map is what its image resolves to under some rpath context. */
  ghost predicate EachMapResolved(env: Environment, maps: DylibMaps) {
    forall image :: image in maps ==> exists ctx :: Resolution(env, ctx, image) == Ok(maps[image])
  }

  /** Visiting some file of the universe under `ctx`, with `maps` recorded, yields `e`. */
  ghost predicate FailsVisiting(env: Environment, ctx: RpathContext, maps: DylibMaps, e: PathsError) {
    exists image :: image in env.files && VisitOutcome(Resolution(env, ctx, image), maps, image) == Fatal(e)
  }

  /** Visiting some file of the universe under some rpath context, with `maps` recorded, yields `e`. */
  ghost predicate FailsUnderSomeContext(env: Environment, maps: DylibMaps, e: PathsError) {
    exists ctx :: FailsVisiting(env, ctx, maps, e)
  }

  /** What the environment itself must be like for a run to abort with `e`: the file is not
      Mach-O, some file's resolution aborts with that cause, or the file resolves to two
      different maps under two rpath contexts. */
  ghost predicate Justified(env: Environment, e: PathsError) {
    match e
    case NotMachOFile(url) => !env.isMachOFile(url)
    case UnresolvableDylibs(cause) =>
      exists ctx, image :: image in env.files && Resolution(env, ctx, image) == Fatal(cause)
    case DifferentResolution(image) =>
      && image in env.files
      && exists ctx, ctx' :: Resolution(env, ctx, image).Ok? && Resolution(env, ctx', image).Ok?
                             && Resolution(env, ctx, image) != Resolution(env, ctx', image)
  }

  /** With every recorded map resolved, a visit that aborts has a cause in the environment, and
      one that succeeds records a resolved map. */
  lemma ResolvedVisit(env: Environment, ctx: RpathContext, maps: DylibMaps, next: Location,
                      failed: bool, maps': DylibMaps)
    requires next in env.files
    requires var v := VisitOutcome(Resolution(env, ctx, next), maps, next);
      (failed <==> v.Fatal?) && (!failed ==> maps' == maps[next := v.value])
    ensures EachMapResolved(env, maps) ==>
      var v := VisitOutcome(Resolution(env, ctx, next), maps, next);
      && (failed ==> Justified(env, v.error))
      && (!failed ==> EachMapResolved(env, maps'))
  {
    if EachMapResolved(env, maps) {
      var v := VisitOutcome(Resolution(env, ctx, next), maps, next);
      if failed && v.error.DifferentResolution? {
        var ctx' :| Resolution(env, ctx', next) == Ok(maps[next]);
        assert Resolution(env, ctx', next) != Resolution(env, ctx, next);
      } else if !failed {
        forall image | image in maps' ensures exists c :: Resolution(env, c, image) == Ok(maps'[image]) {
          if image == next {
            assert Resolution(env, ctx, image) == Ok(maps'[image]);
          }
        }
      }
    }
  }

  /** An environment where no resolution aborts or depends on the rpaths justifies no abort
      of a traversal. */
  lemma UnambiguousJustifiesNothing(env: Environment, e: PathsError)
    requires Unambiguous(env) && !e.NotMachOFile?
    ensures !Justified(env, e)
  {
    match e
    case UnresolvableDylibs(cause) =>
      forall ctx, image ensures Resolution(env, ctx, image).Ok? {
      }
    case DifferentResolution(image) =>
      forall ctx, ctx' ensures Resolution(env, ctx, image) == Resolution(env, ctx', image) {
        assert Resolution(env, ctx, image) == Resolution(env, Bare(image), image);
      }
  }

  /** The images found so far and what they resolve to. */
  class ObfuscationPaths {
    var obfuscableImages: set<Location>
    var unobfuscableDependencies: set<Location>
    var resolvedDylibMapPerImageURL: DylibMaps
    var systemFrameworks: set<Location>
    var nibs: set<Location>

    constructor ()
      ensures obfuscableImages == {} && unobfuscableDependencies == {}
      ensures resolvedDylibMapPerImageURL == map[] && systemFrameworks == {} && nibs == {}
    {
      obfuscableImages := {};
      unobfuscableDependencies := {};
      resolvedDylibMapPerImageURL := map[];
      systemFrameworks := {};
      nibs := {};
    }

    /** The images visited so far. */
    ghost function Classified(): set<Location>
      reads this`obfuscableImages, this`unobfuscableDependencies
    {
      obfuscableImages + unobfuscableDependencies
    }

    /** Every visited image sits in the set the filter chooses, and has exactly one recorded map. */
    ghost predicate ClassifiedBy(filter: Filter, fenv: FilterEnv)
      reads this`obfuscableImages, this`unobfuscableDependencies, this`resolvedDylibMapPerImageURL
    {
      SortedBy(obfuscableImages, unobfuscableDependencies, resolvedDylibMapPerImageURL, filter, fenv)
    }

    /** One popped image: it joins the set the filter chooses, its map is resolved with the
        traversal's accumulator, and the map is recorded on a first visit; a revisit must
        resolve to the recorded map and then changes no map. */
    method Visit(next: Location, env: Environment, acc: RpathsAccumulator, filter: Filter, fenv: FilterEnv)
      returns (r: Result<map<string, Location>, PathsError>)
      requires env.Valid()
      requires ClassifiedBy(filter, fenv)
      modifies this, acc
      ensures IsObfuscable(filter, fenv, next) ==>
        obfuscableImages == old(obfuscableImages) + {next} && unobfuscableDependencies == old(unobfuscableDependencies)
      ensures !IsObfuscable(filter, fenv, next) ==>
        obfuscableImages == old(obfuscableImages) && unobfuscableDependencies == old(unobfuscableDependencies) + {next}
      ensures env.loadNodes(next).None? ==> acc.entries == old(acc.entries)
      ensures env.loadNodes(next).Some? ==>
        acc.entries == old(acc.entries) + NodesEntries(env.loadNodes(next).value, env.deletingLastPathComponent(next))
      ensures r == VisitOutcome(Resolution(env, acc.Context(), next), old(resolvedDylibMapPerImageURL), next)
      ensures r.Ok? ==>
        && r.value.Values <= env.files
        && resolvedDylibMapPerImageURL == old(resolvedDylibMapPerImageURL)[next := r.value]
        && ClassifiedBy(filter, fenv)
      ensures r.Fatal? ==> resolvedDylibMapPerImageURL == old(resolvedDylibMapPerImageURL)
      ensures systemFrameworks == old(systemFrameworks) && nibs == old(nibs)
    {
      if IsObfuscable(filter, fenv, next) {
        obfuscableImages := obfuscableImages + {next};
      } else {
        unobfuscableDependencies := unobfuscableDependencies + {next};
      }
      var resolved := ResolvedDylibLocations(env, next, acc);
      r := VisitOutcome(resolved, resolvedDylibMapPerImageURL, next);
      if r.Ok? {
        // A first visit records the map; a revisit's map equals the recorded one.
        ResolutionExists(env, acc.Context(), next);
        SortingOneMore(old(obfuscableImages), old(unobfuscableDependencies), old(resolvedDylibMapPerImageURL), filter, fenv, next, r.value);
        resolvedDylibMapPerImageURL := resolvedDylibMapPerImageURL[next := r.value];
      }
    }

    /** The traversal invariant of the current state (see `TraversalInvariant`). */
    ghost predicate Traversing(stack: seq<Location>, start: set<Location>, startMaps: DylibMaps, executable: Location,
                               env: Environment, filter: Filter, fenv: FilterEnv, withDependencies: bool)
      reads this`obfuscableImages, this`unobfuscableDependencies, this`resolvedDylibMapPerImageURL
    {
      TraversalInvariant(obfuscableImages, unobfuscableDependencies, resolvedDylibMapPerImageURL, stack,
                         start, startMaps, executable, env, filter, fenv, withDependencies)
    }

    /** One iteration of the `while let nextImageURL = imagesQueue.popLast()` loop: pop, visit
        and, with dependencies, push the targets of the popped image that are classified in
        neither set. Either one more image of the finite file universe is classified, or a
        classified image leaves the stack and only unclassified ones join it. */
    method Step(stack: seq<Location>, ghost start: set<Location>, ghost startMaps: DylibMaps, executable: Location,
                env: Environment, acc: RpathsAccumulator, filter: Filter, fenv: FilterEnv, withDependencies: bool)
      returns (stack': seq<Location>, r: Outcome<PathsError>)
      requires env.Valid() && stack != []
      requires Traversing(stack, start, startMaps, executable, env, filter, fenv, withDependencies)
      modifies this, acc
      ensures r.Pass? ==> Traversing(stack', start, startMaps, executable, env, filter, fenv, withDependencies)
      ensures r.Pass? ==>
        || |env.files - Classified()| < old(|env.files - Classified()|)
        || (Classified() == old(Classified()) && ClassifiedEntries(stack', Classified()) < ClassifiedEntries(stack, Classified()))
      ensures r.Pass? ==> PoppedAndPushed(stack, stack', resolvedDylibMapPerImageURL, Classified(), withDependencies)
      ensures var top := stack[|stack| - 1];
        var v := VisitOutcome(Resolution(env, acc.Context(), top), old(resolvedDylibMapPerImageURL), top);
        && (r.Fail? <==> v.Fatal?)
        && (r.Fail? ==> r.error == v.error)
        && (r.Pass? ==> resolvedDylibMapPerImageURL == old(resolvedDylibMapPerImageURL)[top := v.value])
      ensures r.Fail? ==> r.error.UnresolvableDylibs? || r.error.DifferentResolution?
      ensures r.Fail? ==> resolvedDylibMapPerImageURL == old(resolvedDylibMapPerImageURL)
      ensures r.Fail? ==> FailsVisiting(env, acc.Context(), resolvedDylibMapPerImageURL, r.error)
      ensures EachMapResolved(env, old(resolvedDylibMapPerImageURL)) ==>
        EachMapResolved(env, resolvedDylibMapPerImageURL) && (r.Fail? ==> Justified(env, r.error))
      ensures Faithful(env, old(resolvedDylibMapPerImageURL)) ==>
        r.Pass? && Faithful(env, resolvedDylibMapPerImageURL)
      ensures systemFrameworks == old(systemFrameworks) && nibs == old(nibs)
    {
      ghost var obfuscable0, unobfuscable0, maps0 := obfuscableImages, unobfuscableDependencies, resolvedDylibMapPerImageURL;
      var next := stack[|stack| - 1];
      var rest := stack[..|stack| - 1];

      var visited := Visit(next, env, acc, filter, fenv);
      UnambiguousVisit(env, acc.Context(), maps0, next, visited.Fatal?, resolvedDylibMapPerImageURL);
      assert next in env.files;
      ResolvedVisit(env, acc.Context(), maps0, next, visited.Fatal?, resolvedDylibMapPerImageURL);
      if visited.Fatal? {
        assert VisitOutcome(Resolution(env, acc.Context(), next), resolvedDylibMapPerImageURL, next) == Fatal(visited.error);
        return rest, Fail(visited.error);
      }
      var m := visited.value;

      var pushed: seq<Location> := [];
      if withDependencies {
        // `.reversed()` of a set whose iteration order is unspecified: any listing.
        pushed := Listing(m.Values - obfuscableImages - unobfuscableDependencies);
      }
      stack' := rest + pushed;
      assert IterationStep(obfuscable0, unobfuscable0, maps0, stack, env, filter, fenv,
                           withDependencies, obfuscableImages, unobfuscableDependencies, m, pushed);
      StepKeepsTraversal(obfuscable0, unobfuscable0, maps0, stack, start, startMaps, executable, env, filter, fenv,
                         withDependencies, obfuscableImages, unobfuscableDependencies, m, pushed);
      StepProgresses(obfuscable0, unobfuscable0, maps0, stack, env, filter, fenv,
                     withDependencies, obfuscableImages, unobfuscableDependencies, m, pushed);
      PopThenPush(stack, pushed, resolvedDylibMapPerImageURL, Classified(), withDependencies);
      r := Pass;
    }

    /** `addExecutable`: the traversal from one executable. The stack starts with the executable;
        each popped image is visited and, with dependencies, its targets that are not yet
        classified are pushed. */
    method AddExecutable(executable: Location, env: Environment, filter: Filter, fenv: FilterEnv, withDependencies: bool)
      returns (r: Outcome<PathsError>)
      requires env.Valid() && executable in env.files
      requires ClassifiedBy(filter, fenv)
      requires withDependencies ==> Closed(resolvedDylibMapPerImageURL, Classified())
      modifies this
      ensures r.Pass? ==>
        && Grew(obfuscableImages, unobfuscableDependencies, resolvedDylibMapPerImageURL,
                old(Classified()), old(resolvedDylibMapPerImageURL), {executable}, filter, fenv, withDependencies)
        && systemFrameworks == SystemFrameworksOf(env, obfuscableImages, resolvedDylibMapPerImageURL)
      ensures nibs == old(nibs)
      ensures r.Fail? ==> r.error.UnresolvableDylibs? || r.error.DifferentResolution?
      ensures r.Fail? ==> FailsUnderSomeContext(env, resolvedDylibMapPerImageURL, r.error)
      ensures EachMapResolved(env, old(resolvedDylibMapPerImageURL)) ==>
        EachMapResolved(env, resolvedDylibMapPerImageURL) && (r.Fail? ==> Justified(env, r.error))
      ensures Faithful(env, old(resolvedDylibMapPerImageURL)) ==>
        r.Pass? && Faithful(env, resolvedDylibMapPerImageURL)
    {
      var acc := new RpathsAccumulator(env.deletingLastPathComponent(executable));
      ghost var start := Classified();
      ghost var startMaps := resolvedDylibMapPerImageURL;
      TraversalStarts(obfuscableImages, unobfuscableDependencies, resolvedDylibMapPerImageURL, executable, env, filter, fenv, withDependencies);
      r := Traverse([executable], start, startMaps, executable, env, acc, filter, fenv, withDependencies,
                    Faithful(env, resolvedDylibMapPerImageURL), EachMapResolved(env, resolvedDylibMapPerImageURL));
      if r.Fail? {
        assert FailsVisiting(env, acc.Context(), resolvedDylibMapPerImageURL, r.error);
        return;
      }
      TraversalEnds(obfuscableImages, unobfuscableDependencies, resolvedDylibMapPerImageURL, start, startMaps, executable, env, filter, fenv, withDependencies);
      systemFrameworks := SystemFrameworksOf(env, obfuscableImages, resolvedDylibMapPerImageURL);
    }

    /** The `while let nextImageURL = imagesQueue.popLast()` loop of `addExecutable`: steps
        until the stack is empty or a step aborts. */
    method Traverse(stack: seq<Location>, ghost start: set<Location>, ghost startMaps: DylibMaps, executable: Location,
                    env: Environment, acc: RpathsAccumulator, filter: Filter, fenv: FilterEnv, withDependencies: bool,
                    ghost faithful: bool, ghost resolved: bool)
      returns (r: Outcome<PathsError>)
      requires env.Valid()
      requires Traversing(stack, start, startMaps, executable, env, filter, fenv, withDependencies)
      requires faithful ==> Faithful(env, resolvedDylibMapPerImageURL)
      requires resolved ==> EachMapResolved(env, resolvedDylibMapPerImageURL)
      modifies this, acc
      ensures r.Pass? ==> Traversing([], start, startMaps, executable, env, filter, fenv, withDependencies)
      ensures r.Fail? ==> r.error.UnresolvableDylibs? || r.error.DifferentResolution?
      ensures r.Fail? ==> FailsVisiting(env, acc.Context(), resolvedDylibMapPerImageURL, r.error)
      ensures resolved ==> EachMapResolved(env, resolvedDylibMapPerImageURL) && (r.Fail? ==> Justified(env, r.error))
      ensures faithful ==> r.Pass? && Faithful(env, resolvedDylibMapPerImageURL)
      ensures systemFrameworks == old(systemFrameworks) && nibs == old(nibs)
    {
      var stack := stack;
      r := Pass;
      while stack != []
        invariant Traversing(stack, start, startMaps, executable, env, filter, fenv, withDependencies)
        invariant faithful ==> Faithful(env, resolvedDylibMapPerImageURL)
        invariant resolved ==> EachMapResolved(env, resolvedDylibMapPerImageURL)
        invariant systemFrameworks == old(systemFrameworks) && nibs == old(nibs)
        decreases |env.files - Classified()|, ClassifiedEntries(stack, Classified())
      {
        var o;
        stack, o := Step(stack, start, startMaps, executable, env, acc, filter, fenv, withDependencies);
        if o.Fail? {
          return o;
        }
      }
    }

    /** `addAllExecutables`: the traversal from every Mach-O executable listed under `dir`,
        in listing order; the listed nib files are then remembered. */
    method AddAllExecutables(dir: Location, env: Environment, filter: Filter, fenv: FilterEnv, withDependencies: bool)
      returns (r: Outcome<PathsError>)
      requires env.Valid()
      requires ClassifiedBy(filter, fenv)
      requires withDependencies ==> Closed(resolvedDylibMapPerImageURL, Classified())
      modifies this
      ensures r.Pass? ==>
        var files := env.listFilesRecursively(dir);
        && Grew(obfuscableImages, unobfuscableDependencies, resolvedDylibMapPerImageURL,
                old(Classified()), old(resolvedDylibMapPerImageURL), ExecutablesAmong(env, files), filter, fenv, withDependencies)
        && (Executables(env, files) != [] ==>
              systemFrameworks == SystemFrameworksOf(env, obfuscableImages, resolvedDylibMapPerImageURL))
        && (Executables(env, files) == [] ==> systemFrameworks == old(systemFrameworks))
        && nibs == old(nibs) + NibsAmong(env, files)
      ensures r.Fail? ==> r.error.UnresolvableDylibs? || r.error.DifferentResolution?
      ensures r.Fail? ==> FailsUnderSomeContext(env, resolvedDylibMapPerImageURL, r.error)
      ensures EachMapResolved(env, old(resolvedDylibMapPerImageURL)) ==>
        EachMapResolved(env, resolvedDylibMapPerImageURL) && (r.Fail? ==> Justified(env, r.error))
      ensures Faithful(env, old(resolvedDylibMapPerImageURL)) ==> r.Pass?
    {
      var files := env.listFilesRecursively(dir);
      var executables := Executables(env, files);
      r := AddEach(executables, ExecutablesAmong(env, files), env, filter, fenv, withDependencies);
      if r.Fail? {
        return;
      }
      nibs := nibs + NibsAmong(env, files);
    }

    /** `executables.forEach { addExecutable(...) }`: the traversals one after the other, until
        one aborts; `roots` is the set of the listed executables. */
    method AddEach(executables: seq<Location>, ghost roots: set<Location>,
                   env: Environment, filter: Filter, fenv: FilterEnv, withDependencies: bool)
      returns (r: Outcome<PathsError>)
      requires env.Valid()
      requires forall x :: x in executables ==> x in env.files
      requires forall x :: x in roots <==> x in executables
      requires ClassifiedBy(filter, fenv)
      requires withDependencies ==> Closed(resolvedDylibMapPerImageURL, Classified())
      modifies this
      ensures r.Pass? ==>
        && Grew(obfuscableImages, unobfuscableDependencies, resolvedDylibMapPerImageURL,
                old(Classified()), old(resolvedDylibMapPerImageURL), roots, filter, fenv, withDependencies)
        && (executables != [] ==> systemFrameworks == SystemFrameworksOf(env, obfuscableImages, resolvedDylibMapPerImageURL))
        && (executables == [] ==> systemFrameworks == old(systemFrameworks))
      ensures nibs == old(nibs)
      ensures r.Fail? ==> r.error.UnresolvableDylibs? || r.error.DifferentResolution?
      ensures r.Fail? ==> FailsUnderSomeContext(env, resolvedDylibMapPerImageURL, r.error)
      ensures EachMapResolved(env, old(resolvedDylibMapPerImageURL)) ==>
        EachMapResolved(env, resolvedDylibMapPerImageURL) && (r.Fail? ==> Justified(env, r.error))
      ensures Faithful(env, old(resolvedDylibMapPerImageURL)) ==> r.Pass?
    {
      ghost var done: set<Location> := {};
      ghost var faithful := Faithful(env, resolvedDylibMapPerImageURL);
      ghost var resolved := EachMapResolved(env, resolvedDylibMapPerImageURL);
      var i := 0;
      while i < |executables|
        invariant 0 <= i <= |executables|
        invariant Grew(obfuscableImages, unobfuscableDependencies, resolvedDylibMapPerImageURL,
                       old(Classified()), old(resolvedDylibMapPerImageURL), done, filter, fenv, withDependencies)
        invariant forall x :: x in done <==> x in executables[..i]
        invariant i > 0 ==> systemFrameworks == SystemFrameworksOf(env, obfuscableImages, resolvedDylibMapPerImageURL)
        invariant i == 0 ==> systemFrameworks == old(systemFrameworks)
        invariant nibs == old(nibs)
        invariant faithful ==> Faithful(env, resolvedDylibMapPerImageURL)
        invariant resolved ==> EachMapResolved(env, resolvedDylibMapPerImageURL)
      {
        ghost var obfuscable, unobfuscable, maps := obfuscableImages, unobfuscableDependencies, resolvedDylibMapPerImageURL;
        r := AddExecutable(executables[i], env, filter, fenv, withDependencies);
        if r.Fail? {
          return;
        }
        GrewTwice(obfuscable, unobfuscable, maps, obfuscableImages, unobfuscableDependencies, resolvedDylibMapPerImageURL,
                  old(Classified()), old(resolvedDylibMapPerImageURL), done, {executables[i]}, filter, fenv, withDependencies);
        PrefixOneMore(executables, i);
        done := done + {executables[i]};
        i := i + 1;
      }
      assert executables[..i] == executables;
      assert done == roots;
      r := Pass;
    }
  }

  /** `ObfuscationPaths.forExecutable`: a file that is not Mach-O aborts the run (a Mach-O file
      that is not executable is only warned about); otherwise the traversal runs from that file
      with the filter narrowed so that no other file is obfuscable. */
  method ForExecutable(url: Location, env: Environment, filter: Filter, fenv: FilterEnv, withDependencies: bool)
    returns (r: Result<ObfuscationPaths, PathsError>)
    requires env.Valid()
    ensures !env.isMachOFile(url) ==> r == Fatal(NotMachOFile(url))
    ensures (r.Fatal? && r.error.NotMachOFile?) <==> !env.isMachOFile(url)
    ensures r.Fatal? ==> Justified(env, r.error)
    ensures env.isMachOFile(url) && Unambiguous(env) ==> r.Ok?
    ensures r.Ok? ==>
      var paths := r.value;
      && fresh(paths)
      && Grew(paths.obfuscableImages, paths.unobfuscableDependencies, paths.resolvedDylibMapPerImageURL,
              {}, map[], {url}, And(filter, OnlyFile(url)), fenv, withDependencies)
      && (url in paths.obfuscableImages <==> IsObfuscable(filter, fenv, url))
      && paths.obfuscableImages <= {url}
      && paths.systemFrameworks == SystemFrameworksOf(env, paths.obfuscableImages, paths.resolvedDylibMapPerImageURL)
      && paths.nibs == {}
  {
    if !env.isMachOFile(url) {
      return Fatal(NotMachOFile(url));
    }
    var paths := new ObfuscationPaths();
    var o := paths.AddExecutable(url, env, And(filter, OnlyFile(url)), fenv, withDependencies);
    if o.Fail? {
      return Fatal(o.error);
    }
    OnlyFileNarrows(paths.obfuscableImages, paths.unobfuscableDependencies, paths.resolvedDylibMapPerImageURL,
                    url, filter, fenv);
    return Ok(paths);
  }

  /** Narrowing the filter to one file leaves that file obfuscable exactly when the original
      filter says so, and no other file obfuscable. */
  lemma OnlyFileNarrows(obfuscable: set<Location>, unobfuscable: set<Location>, maps: DylibMaps,
                        url: Location, filter: Filter, fenv: FilterEnv)
    requires SortedBy(obfuscable, unobfuscable, maps, And(filter, OnlyFile(url)), fenv)
    requires url in obfuscable + unobfuscable
    ensures url in obfuscable <==> IsObfuscable(filter, fenv, url)
    ensures obfuscable <= {url}
  {
    forall x | x in obfuscable ensures x == url && IsObfuscable(filter, fenv, x) {
      assert IsObfuscable(And(filter, OnlyFile(url)), fenv, x);
      assert IsObfuscable(OnlyFile(url), fenv, x);
    }
    if url in unobfuscable {
      assert !IsObfuscable(And(filter, OnlyFile(url)), fenv, url);
      assert IsObfuscable(OnlyFile(url), fenv, url);
    }
  }

  /** `ObfuscationPaths.forAllExecutables`: the traversal from every executable under `dir`,
      with the filter narrowed to the files inside `dir`. */
  method ForAllExecutables(dir: Location, env: Environment, filter: Filter, fenv: FilterEnv, withDependencies: bool)
    returns (r: Result<ObfuscationPaths, PathsError>)
    requires env.Valid()
    ensures r.Ok? ==>
      var paths := r.value;
      var files := env.listFilesRecursively(dir);
      && fresh(paths)
      && Grew(paths.obfuscableImages, paths.unobfuscableDependencies, paths.resolvedDylibMapPerImageURL,
              {}, map[], ExecutablesAmong(env, files), And(filter, OnlyFilesIn(dir)), fenv, withDependencies)
      && (Executables(env, files) != [] ==>
            paths.systemFrameworks == SystemFrameworksOf(env, paths.obfuscableImages, paths.resolvedDylibMapPerImageURL))
      && (Executables(env, files) == [] ==> paths.systemFrameworks == {})
      && paths.nibs == NibsAmong(env, files)
    ensures r.Fatal? ==> r.error.UnresolvableDylibs? || r.error.DifferentResolution?
    ensures r.Fatal? ==> Justified(env, r.error)
    ensures Unambiguous(env) ==> r.Ok?
  {
    var paths := new ObfuscationPaths();
    var o := paths.AddAllExecutables(dir, env, And(filter, OnlyFilesIn(dir)), fenv, withDependencies);
    if o.Fail? {
      return Fatal(o.error);
    }
    return Ok(paths);
  }
}
