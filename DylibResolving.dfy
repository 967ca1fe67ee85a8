/** Per-image dylib resolution (`FileRepository.resolvedDylibLocations`) and the
    framework-path rewrite `String.asLibraryPath`.

    The dependency-node loader, the rpath accumulator's `resolve`, and the file-system queries
    are collaborators whose code is not part of this model: they are function values held in an
    `Environment`. */
module DylibResolving {
  import opened Wrappers
  import opened Strings
  import opened Dictionaries
  import opened Filters

  /** Platform tag of a load command (opaque to this model). */
  type Platform = nat

  /** One architecture slice of an image as the dependency-node loader sees it. */
  datatype DependencyNode = DependencyNode(
    rpaths: seq<string>,
    dylibs: seq<string>,
    cstrings: seq<string>,
    platform: Platform)

  /** One rpath declared by a loader, as recorded by `RpathsAccumulator.add`. */
  datatype RpathEntry = RpathEntry(rpath: string, loaderPath: Location, platform: Platform)

  /** Everything `RpathsAccumulator.resolve` can depend on besides its arguments. */
  datatype RpathContext = RpathContext(executablePath: Location, entries: seq<RpathEntry>)

  /** The collaborators of the graph resolver. */
  datatype Environment = Environment(
    files: set<Location>,                                              // files that exist
    isMachOFile: Location -> bool,                                     // DependencyNodeLoader.isMachOFile
    isMachOExecutable: Location -> bool,                               // DependencyNodeLoader.isMachOExecutable
    loadNodes: Location -> Option<seq<DependencyNode>>,                // DependencyNodeLoader.load; None when it throws
    resolve: (RpathContext, string, Location, Platform) -> Option<Location>, // RpathsAccumulator.resolve
    deletingLastPathComponent: Location -> Location,                   // URL.deletingLastPathComponent()
    listFilesRecursively: Location -> seq<Location>,                   // FileRepository.listFilesRecursively
    pathExtension: Location -> string,                                 // URL.pathExtension
    systemFrameworkLocations: (string, Location) -> seq<Location>)     // FileRepository.resolvedSystemFrameworkLocations
  {
    /** The file system is finite and the collaborators only report files that exist:
        `resolve` checks existence, and a Mach-O file is a file. */
    ghost predicate Valid() {
      && (forall ctx, entry, loaderPath, platform :: resolve(ctx, entry, loaderPath, platform).Some? ==>
            resolve(ctx, entry, loaderPath, platform).value in files)
      && (forall url :: isMachOFile(url) ==> url in files)
      && (forall url :: isMachOExecutable(url) ==> url in files)
    }
  }

  const FrameworkSuffix: string := ".framework"

  /** `String.asLibraryPath`: a framework bundle path becomes the path of the library inside it,
      which carries the framework's name (`/x/Foo.framework` becomes `/x/Foo.framework/Foo`). */
  function AsLibraryPath(s: string): (r: Option<string>)
    ensures r.Some? <==> StartsWith(s, "/") && EndsWith(LastComponent(s), FrameworkSuffix)
    ensures r.Some? ==> StartsWith(r.value, s + "/")
    ensures r.Some? ==> LastComponent(r.value) + FrameworkSuffix == LastComponent(s)
  {
    var last := LastComponent(s);
    if StartsWith(s, "/") && EndsWith(last, FrameworkSuffix) then
      var binaryName := last[..|last| - |FrameworkSuffix|];
      BinaryInsideFramework(s, last);
      Some(s + "/" + binaryName)
    else
      None
  }

  /** The library named after a framework sits right under the framework's path. */
  lemma BinaryInsideFramework(s: string, last: string)
    requires last == LastComponent(s) && EndsWith(last, FrameworkSuffix)
    ensures var binaryName := last[..|last| - |FrameworkSuffix|];
      && StartsWith(s + "/" + binaryName, s + "/")
      && LastComponent(s + "/" + binaryName) + FrameworkSuffix == last
  {
    var binaryName := last[..|last| - |FrameworkSuffix|];
    assert '/' !in binaryName by {
      assert forall i :: 0 <= i < |binaryName| ==> binaryName[i] == last[i];
    }
    LastComponentAfterSlash(s, binaryName);
    assert (s + "/" + binaryName)[..|s + "/"|] == s + "/";
    assert binaryName + FrameworkSuffix == last;
  }

  lemma {:induction false} LastComponentAfterSlash(prefix: string, name: string)
    requires '/' !in name
    ensures LastComponent(prefix + "/" + name) == name
    decreases |name|
  {
    var s := prefix + "/" + name;
    if name == [] {
      assert s[|s| - 1] == '/';
    } else {
      var init := name[..|name| - 1];
      assert s[..|s| - 1] == prefix + "/" + init;
      LastComponentAfterSlash(prefix, init);
      assert init + [name[|name| - 1]] == name;
    }
  }

  /** A bundle path `dir/Name.framework` is rewritten to `dir/Name.framework/Name`. */
  lemma FrameworkBundleRewrite(dir: string, name: string)
    requires '/' !in name
    requires dir == [] || dir[0] == '/'
    ensures var bundle := dir + "/" + name + FrameworkSuffix;
      AsLibraryPath(bundle) == Some(bundle + "/" + name)
  {
    var last := name + FrameworkSuffix;
    FrameworkNameParts(name);
    BundleParts(dir, name);
    LastComponentAfterSlash(dir, last);
    AsLibraryPathOf(dir + "/" + last, last);
  }

  /** The rewrite of a path whose last component is known. */
  lemma AsLibraryPathOf(s: string, last: string)
    requires last == LastComponent(s) && StartsWith(s, "/") && EndsWith(last, FrameworkSuffix)
    ensures AsLibraryPath(s) == Some(s + "/" + last[..|last| - |FrameworkSuffix|])
  {
  }

  /** A bundle path under an absolute (or empty) directory is absolute. */
  lemma BundleParts(dir: string, name: string)
    requires dir == [] || dir[0] == '/'
    ensures var bundle := dir + "/" + name + FrameworkSuffix;
      bundle == dir + "/" + (name + FrameworkSuffix) && StartsWith(bundle, "/")
  {
    var bundle := dir + "/" + name + FrameworkSuffix;
    assert bundle[0] == '/';
  }

  /** A framework's last component ends in the suffix and gives its name back without it. */
  lemma FrameworkNameParts(name: string)
    requires '/' !in name
    ensures var last := name + FrameworkSuffix;
      && '/' !in last && EndsWith(last, FrameworkSuffix) && last[..|last| - |FrameworkSuffix|] == name
  {
    var last := name + FrameworkSuffix;
    assert last[..|name|] == name;
    assert last[|name|..] == FrameworkSuffix;
  }

  /** The rpath entries `add` records for one node. */
  function EntriesFor(rpaths: seq<string>, loaderPath: Location, platform: Platform): (r: seq<RpathEntry>)
    ensures |r| == |rpaths|
    ensures forall i :: 0 <= i < |r| ==> r[i] == RpathEntry(rpaths[i], loaderPath, platform)
  {
    if rpaths == [] then [] else [RpathEntry(rpaths[0], loaderPath, platform)] + EntriesFor(rpaths[1..], loaderPath, platform)
  }

  /** The rpath entries of all nodes, node after node. */
  function NodesEntries(nodes: seq<DependencyNode>, loaderPath: Location): seq<RpathEntry> {
    if nodes == [] then []
    else
      var last := nodes[|nodes| - 1];
      NodesEntries(nodes[..|nodes| - 1], loaderPath) + EntriesFor(last.rpaths, loaderPath, last.platform)
  }

  /** The rpath search context one traversal grows as it visits loaders. */
  class RpathsAccumulator {
    const executablePath: Location
    var entries: seq<RpathEntry>

    constructor (executablePath: Location)
      ensures this.executablePath == executablePath && entries == []
    {
      this.executablePath := executablePath;
      entries := [];
    }

    /** `add(rpaths:loaderPath:platform:)`: the declared rpaths become visible to every later
        resolution of this traversal, after those recorded earlier. */
    method Add(rpaths: seq<string>, loaderPath: Location, platform: Platform)
      modifies this
      ensures entries == old(entries) + EntriesFor(rpaths, loaderPath, platform)
    {
      entries := entries + EntriesFor(rpaths, loaderPath, platform);
    }

    function Context(): RpathContext
      reads this
    {
      RpathContext(executablePath, entries)
    }
  }

  /** `dylibs.compactMap`: each entry that resolves, paired with its location, in order. */
  function ResolvedPairs(env: Environment, ctx: RpathContext, loaderPath: Location, platform: Platform,
                         entries: seq<string>): (pairs: seq<(string, Location)>)
    ensures forall p :: p in pairs <==> p.0 in entries && env.resolve(ctx, p.0, loaderPath, platform) == Some(p.1)
  {
    if entries == [] then []
    else
      var rest := ResolvedPairs(env, ctx, loaderPath, platform, entries[1..]);
      assert forall e :: e in entries <==> e == entries[0] || e in entries[1..];
      match env.resolve(ctx, entries[0], loaderPath, platform)
      case None => rest
      case Some(location) => [(entries[0], location)] + rest
  }

  /** `cstrings.compactMap`: each literal string that `asLibraryPath` rewrites and whose
      rewritten path resolves, paired with its location; every other string is skipped silently. */
  function ResolvedCstringPairs(env: Environment, ctx: RpathContext, loaderPath: Location, platform: Platform,
                                cstrings: seq<string>): (pairs: seq<(string, Location)>)
    ensures forall p :: p in pairs <==>
      (exists c :: c in cstrings && AsLibraryPath(c) == Some(p.0)) && env.resolve(ctx, p.0, loaderPath, platform) == Some(p.1)
  {
    if cstrings == [] then []
    else
      var rest := ResolvedCstringPairs(env, ctx, loaderPath, platform, cstrings[1..]);
      assert forall c :: c in cstrings <==> c == cstrings[0] || c in cstrings[1..];
      match AsLibraryPath(cstrings[0])
      case None => rest
      case Some(binaryPath) =>
        match env.resolve(ctx, binaryPath, loaderPath, platform)
        case None => rest
        case Some(location) => [(binaryPath, location)] + rest
  }

  /** A declared dylib of some node that resolves to `location`. */
  ghost predicate DylibResolvesTo(env: Environment, ctx: RpathContext, loaderPath: Location,
                                  nodes: seq<DependencyNode>, entry: string, location: Location) {
    exists n :: n in nodes && entry in n.dylibs && env.resolve(ctx, entry, loaderPath, n.platform) == Some(location)
  }

  /** A literal string of some node that rewrites to `entry`, which resolves to `location`. */
  ghost predicate CstringResolvesTo(env: Environment, ctx: RpathContext, loaderPath: Location,
                                    nodes: seq<DependencyNode>, entry: string, location: Location) {
    exists n, c :: n in nodes && c in n.cstrings && AsLibraryPath(c) == Some(entry)
      && env.resolve(ctx, entry, loaderPath, n.platform) == Some(location)
  }

  /** `nodes.flatMap { node in node.dylibs.compactMap { ... } }`. */
  function DylibPairs(env: Environment, ctx: RpathContext, loaderPath: Location,
                      nodes: seq<DependencyNode>): (pairs: seq<(string, Location)>)
    ensures forall p :: p in pairs <==> DylibResolvesTo(env, ctx, loaderPath, nodes, p.0, p.1)
  {
    if nodes == [] then []
    else
      var n := nodes[0];
      assert forall m :: m in nodes <==> m == n || m in nodes[1..];
      ResolvedPairs(env, ctx, loaderPath, n.platform, n.dylibs) + DylibPairs(env, ctx, loaderPath, nodes[1..])
  }

  /** `nodes.flatMap { node in node.cstrings.compactMap { ... } }`. */
  function CstringPairs(env: Environment, ctx: RpathContext, loaderPath: Location,
                        nodes: seq<DependencyNode>): (pairs: seq<(string, Location)>)
    ensures forall p :: p in pairs <==> CstringResolvesTo(env, ctx, loaderPath, nodes, p.0, p.1)
  {
    if nodes == [] then []
    else
      var n := nodes[0];
      assert forall m :: m in nodes <==> m == n || m in nodes[1..];
      ResolvedCstringPairs(env, ctx, loaderPath, n.platform, n.cstrings) + CstringPairs(env, ctx, loaderPath, nodes[1..])
  }

  datatype ResolveError = AmbiguousDylibLocations(loader: Location)

  /** The dylib map of one loaded image, once every rpath of its nodes is in `ctx`. */
  function DylibMap(env: Environment, ctx: RpathContext, loader: Location, nodes: seq<DependencyNode>)
    : Result<map<string, Location>, ResolveError>
  {
    var loaderPath := env.deletingLastPathComponent(loader);
    match MergeAgreeing(DylibPairs(env, ctx, loaderPath, nodes) + CstringPairs(env, ctx, loaderPath, nodes))
    case None => Fatal(AmbiguousDylibLocations(loader))
    case Some(m) => Ok(m)
  }

  /** What resolving `loader` gives once its rpaths are in `ctx`: an empty map when its nodes
      cannot be loaded, the merged map of its nodes otherwise. */
  function Resolution(env: Environment, ctx: RpathContext, loader: Location): Result<map<string, Location>, ResolveError> {
    match env.loadNodes(loader)
    case None => Ok(map[])
    case Some(nodes) => DylibMap(env, ctx, loader, nodes)
  }

  /** A successful resolution only yields files that exist. */
  lemma ResolutionExists(env: Environment, ctx: RpathContext, loader: Location)
    requires env.Valid()
    requires Resolution(env, ctx, loader).Ok?
    ensures Resolution(env, ctx, loader).value.Values <= env.files
  {
    if env.loadNodes(loader).Some? {
      ResolvedLocationsExist(env, ctx, loader, env.loadNodes(loader).value);
    }
  }

  /** `nodes.forEach { node in rpathsAccumulator.add(rpaths: node.rpaths, ...) }`. */
  method AddRpathsOfNodes(acc: RpathsAccumulator, nodes: seq<DependencyNode>, loaderPath: Location)
    modifies acc
    ensures acc.entries == old(acc.entries) + NodesEntries(nodes, loaderPath)
  {
    var i := 0;
    while i < |nodes|
      invariant 0 <= i <= |nodes|
      invariant acc.entries == old(acc.entries) + NodesEntries(nodes[..i], loaderPath)
    {
      NodesEntriesOneMore(nodes, i, loaderPath);
      ghost var before := NodesEntries(nodes[..i], loaderPath);
      acc.Add(nodes[i].rpaths, loaderPath, nodes[i].platform);
      AppendAfter(old(acc.entries), before, EntriesFor(nodes[i].rpaths, loaderPath, nodes[i].platform));
      i := i + 1;
    }
    assert nodes[..|nodes|] == nodes;
  }

  lemma AppendAfter<T>(a: seq<T>, b: seq<T>, c: seq<T>)
    ensures (a + b) + c == a + (b + c)
  {
  }

  /** The entries of one more node come after those of the nodes before it. */
  lemma NodesEntriesOneMore(nodes: seq<DependencyNode>, i: nat, loaderPath: Location)
    requires i < |nodes|
    ensures NodesEntries(nodes[..i + 1], loaderPath)
         == NodesEntries(nodes[..i], loaderPath) + EntriesFor(nodes[i].rpaths, loaderPath, nodes[i].platform)
  {
    assert nodes[..i + 1][..i] == nodes[..i];
  }

  /** `resolvedDylibLocations(loader:rpathsAccumulator:dependencyNodeLoader:)`.
      A loader that fails to load gives an empty map and leaves the accumulator untouched;
      otherwise the rpaths of all its nodes are added first, and only then is anything resolved. */
  method ResolvedDylibLocations(env: Environment, loader: Location, acc: RpathsAccumulator)
    returns (r: Result<map<string, Location>, ResolveError>)
    modifies acc
    ensures env.loadNodes(loader).None? ==> r == Ok(map[]) && acc.entries == old(acc.entries)
    ensures env.loadNodes(loader).Some? ==>
      && acc.entries == old(acc.entries) + NodesEntries(env.loadNodes(loader).value, env.deletingLastPathComponent(loader))
      && r == DylibMap(env, acc.Context(), loader, env.loadNodes(loader).value)
    ensures r == Resolution(env, acc.Context(), loader)
  {
    var loaderPath := env.deletingLastPathComponent(loader);
    match env.loadNodes(loader)
    case None =>
      return Ok(map[]);
    case Some(nodes) =>
      AddRpathsOfNodes(acc, nodes, loaderPath);
      r := DylibMap(env, acc.Context(), loader, nodes);
  }

  /** Every declared dylib that resolves is a key of the image's map, mapped to its location;
      every key comes from a declared dylib or a rewritten literal string that resolves to it. */
  lemma ResolvedMapContents(env: Environment, ctx: RpathContext, loader: Location,
                            nodes: seq<DependencyNode>, entry: string, location: Location)
    requires DylibMap(env, ctx, loader, nodes).Ok?
    ensures var m := DylibMap(env, ctx, loader, nodes).value;
            var loaderPath := env.deletingLastPathComponent(loader);
            && (DylibResolvesTo(env, ctx, loaderPath, nodes, entry, location) ==> entry in m && m[entry] == location)
            && (CstringResolvesTo(env, ctx, loaderPath, nodes, entry, location) ==> entry in m && m[entry] == location)
            && (entry in m && m[entry] == location <==>
                  DylibResolvesTo(env, ctx, loaderPath, nodes, entry, location)
                  || CstringResolvesTo(env, ctx, loaderPath, nodes, entry, location))
  {
    var loaderPath := env.deletingLastPathComponent(loader);
    var pairs := DylibPairs(env, ctx, loaderPath, nodes) + CstringPairs(env, ctx, loaderPath, nodes);
    assert (entry, location) in pairs <==>
      (entry, location) in DylibPairs(env, ctx, loaderPath, nodes) || (entry, location) in CstringPairs(env, ctx, loaderPath, nodes);
  }

  /** Two entries of one image that resolve to different locations abort the run. */
  lemma AmbiguityIsFatal(env: Environment, ctx: RpathContext, loader: Location,
                         nodes: seq<DependencyNode>, entry: string, l1: Location, l2: Location)
    requires l1 != l2
    requires var loaderPath := env.deletingLastPathComponent(loader);
      && (DylibResolvesTo(env, ctx, loaderPath, nodes, entry, l1) || CstringResolvesTo(env, ctx, loaderPath, nodes, entry, l1))
      && (DylibResolvesTo(env, ctx, loaderPath, nodes, entry, l2) || CstringResolvesTo(env, ctx, loaderPath, nodes, entry, l2))
    ensures DylibMap(env, ctx, loader, nodes) == Fatal(AmbiguousDylibLocations(loader))
  {
    if DylibMap(env, ctx, loader, nodes).Ok? {
      ResolvedMapContents(env, ctx, loader, nodes, entry, l1);
      ResolvedMapContents(env, ctx, loader, nodes, entry, l2);
    }
  }

  /** Resolved locations are files that exist. */
  lemma ResolvedLocationsExist(env: Environment, ctx: RpathContext, loader: Location, nodes: seq<DependencyNode>)
    requires env.Valid()
    requires DylibMap(env, ctx, loader, nodes).Ok?
    ensures DylibMap(env, ctx, loader, nodes).value.Values <= env.files
  {
    var m := DylibMap(env, ctx, loader, nodes).value;
    forall l | l in m.Values ensures l in env.files {
      var k :| k in m && m[k] == l;
      ResolvedMapContents(env, ctx, loader, nodes, k, l);
    }
  }
}
