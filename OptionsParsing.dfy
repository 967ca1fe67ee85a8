/** `Options.init(argc:unsafeArgv:argv:)` of MachObfuscator: the command line, read one
    `getopt_long` result at a time. `getopt_long` itself is not part of this model: the loop is
    handed the sequence of codes it returns, each with its `optarg`, and the operands left after
    the options. */
module OptionsParsing {
  import opened Wrappers
  import opened Strings
  import Classification
  import Filters

  // Codes `getopt_long` returns: short options and `?` return their ASCII value
  // (`OptLongChars`), the long-only options the values of `OptLongCases`, counted from 256.
  const OptUnknownOption := 63              // '?'
  const OptHelp := 104                      // 'h'
  const OptVerbose := 118                   // 'v'
  const OptQuiet := 113                     // 'q'
  const OptDebug := 100                     // 'd'
  const OptMachOViewDoom := 68              // 'D'
  const OptManglerKey := 109                // 'm'
  const OptPreserveSymtab := 257
  const OptSwiftReflection := 258
  const OptObjcBlacklistClass := 259
  const OptObjcBlacklistClassRegex := 260
  const OptObjcBlacklistSelector := 261
  const OptObjcBlacklistSelectorRegex := 262
  const OptEraseSection := 263
  const OptEraseMethType := 264
  const OptEraseSourceFileNames := 265
  const OptObfuscateFramework := 266
  const OptSkipFramework := 267
  const OptSkipAllFrameworks := 268
  const OptSkipSymbolsFromSources := 269
  const OptSkipSymbolsFromList := 270
  const OptDryRun := 271
  const OptReplaceCstring := 272
  const OptReplaceWith := 273
  const OptReportToConsole := 274
  const OptXxNoAnalyzeDependencies := 275
  const OptXxDumpMetadata := 276
  const OptXxFindSymbol := 277

  /** The codes the `switch` of the option loop has a case for. */
  predicate Handled(code: int) {
    || code == OptUnknownOption
    || code == OptHelp
    || code == OptVerbose
    || code == OptQuiet
    || code == OptDebug
    || code == OptMachOViewDoom
    || code == OptManglerKey
    || code == OptPreserveSymtab
    || code == OptSwiftReflection
    || code == OptObjcBlacklistClass
    || code == OptObjcBlacklistClassRegex
    || code == OptObjcBlacklistSelector
    || code == OptObjcBlacklistSelectorRegex
    || code == OptEraseSection
    || code == OptEraseMethType
    || code == OptEraseSourceFileNames
    || code == OptObfuscateFramework
    || code == OptSkipFramework
    || code == OptSkipAllFrameworks
    || code == OptSkipSymbolsFromSources
    || code == OptSkipSymbolsFromList
    || code == OptDryRun
    || code == OptReplaceCstring
    || code == OptReplaceWith
    || code == OptReportToConsole
    || code == OptXxNoAnalyzeDependencies
    || code == OptXxDumpMetadata
    || code == OptXxFindSymbol
  }

  /** One result of `getopt_long`: the option code and its `optarg` (empty for options without one). */
  datatype OptEvent = OptEvent(code: int, optarg: string)

  /** `EraseSectionConfiguration`: a section to erase, named by segment and section. */
  datatype EraseSectionConfiguration = EraseSectionConfiguration(sectionName: string, segmentName: string)

  datatype ReportTarget = NoTarget | Console

  /** The fields of `Options`. A mangler is named by its key; URLs are kept as the path strings
      they are made from. */
  datatype Options = Options(
    unknownOption: bool,
    help: bool,
    dryrun: bool,
    quiet: bool,
    verbose: bool,
    debug: bool,
    dumpMetadata: bool,
    machOViewDoom: bool,
    eraseMethType: bool,
    eraseSymtab: bool,
    swiftReflectionObfuscation: bool,
    objcOptions: Classification.ObjcOptions,
    eraseSections: seq<EraseSectionConfiguration>,
    sourceFileNamesReplacement: string,
    sourceFileNamesPrefixes: seq<string>,
    cstringsReplacements: map<string, string>,
    obfuscableFilesFilter: Filters.Filter,
    analyzeDependencies: bool,
    findSymbols: seq<string>,
    manglerType: Option<string>,
    skippedSymbolsSources: seq<string>,
    skippedSymbolsLists: seq<string>,
    appDirectoryOrFile: Option<string>,
    reportTarget: ReportTarget)

  /** The `fatalError`s of option parsing. */
  datatype OptionsError =
    | BadSectionDefinition(sectionDef: string)
    | InvalidClassRegex(classPattern: string)
    | InvalidSelectorRegex(selectorPattern: string)
    | ReplaceCstringPending
    | ReplaceWithoutCstring
    | ReplacementTooLong(cstring: string, replacement: string)
    | UnexpectedArgument(code: int)
    | LastReplaceCstringPending

  /** Collaborators whose code is not part of this model: the raw values of `SymbolManglers` and
      its default, whether `NSRegularExpression` accepts a pattern, and
      `URL(fileURLWithPath:).resolvingSymlinksInPath()`. */
  datatype OptionsEnv = OptionsEnv(
    manglerKeys: set<string>,
    defaultMangler: string,
    compiles: Classification.Pattern -> bool,
    resolvedFileURL: string -> string)

  /** The declared defaults of `Options`. */
  function DefaultOptions(env: OptionsEnv): Options {
    Options(false, false, false, false, false, false, false, false, false, true, false,
            Classification.NoObjcOptions, [], "FILENAME_REMOVED", [], map[], Filters.DefaultFilter,
            true, [], Some(env.defaultMangler), [], [], None, NoTarget)
  }

  /** `EraseSectionConfiguration.init(sectionDef:)`: `SEGMENT,SECTION`; anything that does not
      split into exactly two comma-free pieces stops the run. */
  function EraseSection(sectionDef: string): (r: Result<EraseSectionConfiguration, OptionsError>)
    ensures r.Ok? <==> |Split(sectionDef, ',')| == 2
    ensures r.Fatal? ==> r.error == BadSectionDefinition(sectionDef)
    ensures r.Ok? ==> r.value.segmentName != [] && r.value.sectionName != []
                      && ',' !in r.value.segmentName && ',' !in r.value.sectionName
    ensures r.Ok? ==> r.value.segmentName + r.value.sectionName == Without(sectionDef, ',')
  {
    var sectionParts := Split(sectionDef, ',');
    SplitKeepsCharacters(sectionDef, ',');
    if |sectionParts| != 2 then Fatal(BadSectionDefinition(sectionDef))
    else
      assert Concat(sectionParts) == sectionParts[0] + sectionParts[1] by {
        assert sectionParts[1..][1..] == [];
        assert Concat(sectionParts[1..]) == sectionParts[1] + [];
      }
      Ok(EraseSectionConfiguration(sectionParts[1], sectionParts[0]))
  }

  /** Round trip: `SEGMENT,SECTION` written from a configuration reads back as that configuration. */
  lemma EraseSectionRoundTrip(c: EraseSectionConfiguration)
    requires c.segmentName != [] && c.sectionName != []
    requires ',' !in c.segmentName && ',' !in c.sectionName
    ensures EraseSection(c.segmentName + [','] + c.sectionName) == Ok(c)
  {
    var pieces := [c.segmentName, c.sectionName];
    SplitJoin(pieces, ',');
    assert Join(pieces, ',') == c.segmentName + [','] + c.sectionName by {
      assert pieces[1..] == [c.sectionName];
    }
  }

  /** `SymbolManglers(rawValue:)`: the mangler with that key, if there is one. */
  function ManglerNamed(key: string, env: OptionsEnv): Option<string> {
    if key in env.manglerKeys then Some(key) else None
  }

  /** The state of the option loop: the options so far, the `--replace-cstring` argument still
      waiting for its `--replace-cstring-with`, and the two groups of the file filter. */
  datatype ParseState = ParseState(
    opts: Options,
    pending: Option<string>,
    whitelist: Filters.Filter,
    blacklist: Filters.Filter)

  function Initial(env: OptionsEnv): ParseState {
    ParseState(DefaultOptions(env), None, Filters.NoFiles, Filters.DefaultFilter)
  }

  /** The options that only switch a field of `Options`. */
  predicate Switching(code: int) {
    || code == OptQuiet
    || code == OptVerbose
    || code == OptDebug
    || code == OptHelp
    || code == OptDryRun
    || code == OptEraseMethType
    || code == OptMachOViewDoom
    || code == OptPreserveSymtab
    || code == OptSwiftReflection
    || code == OptReportToConsole
    || code == OptXxNoAnalyzeDependencies
    || code == OptXxDumpMetadata
    || code == OptUnknownOption
  }

  /** The options whose argument is recorded in a field of `Options`. */
  predicate Recording(code: int) {
    || code == OptManglerKey
    || code == OptObjcBlacklistClass
    || code == OptObjcBlacklistClassRegex
    || code == OptObjcBlacklistSelector
    || code == OptObjcBlacklistSelectorRegex
    || code == OptEraseSection
    || code == OptEraseSourceFileNames
    || code == OptSkipSymbolsFromSources
    || code == OptSkipSymbolsFromList
    || code == OptXxFindSymbol
  }

  /** The argument of `ev` when it carries `code`, as a one-element list. */
  function ArgIf(ev: OptEvent, code: int): seq<string> {
    if ev.code == code then [ev.optarg] else []
  }

  /** The comma-separated names in the argument of `ev` when it carries `code`. */
  function PiecesIf(ev: OptEvent, code: int): seq<string> {
    if ev.code == code then Split(ev.optarg, ',') else []
  }

  /** The cases of the option loop that switch a field: each field is switched by its own
      option only. */
  function Switch(opts: Options, code: int): (r: Options)
    ensures r.cstringsReplacements == opts.cstringsReplacements
  {
    opts.(
      quiet := opts.quiet || code == OptQuiet,
      verbose := opts.verbose || code == OptVerbose,
      debug := opts.debug || code == OptDebug,
      help := opts.help || code == OptHelp,
      dryrun := opts.dryrun || code == OptDryRun,
      eraseMethType := opts.eraseMethType || code == OptEraseMethType,
      machOViewDoom := opts.machOViewDoom || code == OptMachOViewDoom,
      eraseSymtab := opts.eraseSymtab && code != OptPreserveSymtab,
      swiftReflectionObfuscation := opts.swiftReflectionObfuscation || code == OptSwiftReflection,
      reportTarget := if code == OptReportToConsole then Console else opts.reportTarget,
      analyzeDependencies := opts.analyzeDependencies && code != OptXxNoAnalyzeDependencies,
      dumpMetadata := opts.dumpMetadata || code == OptXxDumpMetadata,
      unknownOption := opts.unknownOption || code == OptUnknownOption)
  }

  /** The cases of the option loop that record their argument: a regular expression that does
      not compile or a malformed section stops the run; otherwise each list grows by what its
      own option brings, and `-m` replaces the mangler. */
  function Record(opts: Options, ev: OptEvent, env: OptionsEnv): (r: Result<Options, OptionsError>)
    ensures r.Ok? ==> r.value.cstringsReplacements == opts.cstringsReplacements
  {
    var arg := ev.optarg;
    if ev.code == OptObjcBlacklistClassRegex && !env.compiles(arg) then Fatal(InvalidClassRegex(arg))
    else if ev.code == OptObjcBlacklistSelectorRegex && !env.compiles(arg) then Fatal(InvalidSelectorRegex(arg))
    else if ev.code == OptEraseSection && EraseSection(arg).Fatal? then Fatal(EraseSection(arg).error)
    else Ok(Recorded(opts, ev, env))
  }

  /** What a recording option adds to the options once its argument is accepted. */
  function Recorded(opts: Options, ev: OptEvent, env: OptionsEnv): (r: Options)
    ensures r == opts.(manglerType := r.manglerType, objcOptions := r.objcOptions, eraseSections := r.eraseSections,
                       sourceFileNamesPrefixes := r.sourceFileNamesPrefixes, skippedSymbolsSources := r.skippedSymbolsSources,
                       skippedSymbolsLists := r.skippedSymbolsLists, findSymbols := r.findSymbols)
  {
    opts.(
      manglerType := if ev.code == OptManglerKey then ManglerNamed(ev.optarg, env) else opts.manglerType,
      objcOptions := Classification.ObjcOptions(
        opts.objcOptions.classesBlacklist + PiecesIf(ev, OptObjcBlacklistClass),
        opts.objcOptions.classesBlacklistRegex + ArgIf(ev, OptObjcBlacklistClassRegex),
        opts.objcOptions.selectorsBlacklist + PiecesIf(ev, OptObjcBlacklistSelector),
        opts.objcOptions.selectorsBlacklistRegex + ArgIf(ev, OptObjcBlacklistSelectorRegex)),
      eraseSections := opts.eraseSections + SectionIf(ev),
      sourceFileNamesPrefixes := opts.sourceFileNamesPrefixes + ArgIf(ev, OptEraseSourceFileNames),
      skippedSymbolsSources := opts.skippedSymbolsSources + ArgIf(ev, OptSkipSymbolsFromSources),
      skippedSymbolsLists := opts.skippedSymbolsLists + ArgIf(ev, OptSkipSymbolsFromList),
      findSymbols := opts.findSymbols + PiecesIf(ev, OptXxFindSymbol))
  }

  /** The section named by `ev` when it is a well-formed `--erase-section`. */
  function SectionIf(ev: OptEvent): seq<EraseSectionConfiguration> {
    var section := EraseSection(ev.optarg);
    if ev.code == OptEraseSection && section.Ok? then [section.value] else []
  }

  /** One pass of the option loop. */
  function Step(st: ParseState, ev: OptEvent, env: OptionsEnv): (r: Result<ParseState, OptionsError>)
    ensures !Handled(ev.code) ==> r == Fatal(UnexpectedArgument(ev.code))
  {
    var arg := ev.optarg;
    if ev.code == OptReplaceCstring then
      if st.pending.Some? then Fatal(ReplaceCstringPending) else Ok(st.(pending := Some(arg)))
    else if ev.code == OptReplaceWith then
      match st.pending
      case None => Fatal(ReplaceWithoutCstring)
      case Some(cstring) =>
        if Utf8Length(cstring) < Utf8Length(arg) then Fatal(ReplacementTooLong(cstring, arg))
        else Ok(st.(opts := st.opts.(cstringsReplacements := st.opts.cstringsReplacements[cstring := arg]),
                    pending := None))
    else if ev.code == OptObfuscateFramework then
      Ok(st.(whitelist := Filters.Or(st.whitelist, Filters.IsFramework(arg))))
    else if ev.code == OptSkipFramework then
      Ok(st.(blacklist := Filters.And(st.blacklist, Filters.SkipFramework(arg))))
    else if ev.code == OptSkipAllFrameworks then
      Ok(st.(blacklist := Filters.And(st.blacklist, Filters.SkipAllFrameworks)))
    else if Switching(ev.code) then Ok(st.(opts := Switch(st.opts, ev.code)))
    else if Recording(ev.code) then
      var opts :- Record(st.opts, ev, env);
      Ok(st.(opts := opts))
    else Fatal(UnexpectedArgument(ev.code))
  }

  /** A pass of the option loop, as a value. */
  type Stepper = (ParseState, OptEvent) -> Result<ParseState, OptionsError>

  function StepOf(env: OptionsEnv): Stepper {
    (st, ev) => Step(st, ev, env)
  }

  /** A loop that makes one pass per event; the first `fatalError` ends it. */
  function RunSteps(step: Stepper, st: ParseState, events: seq<OptEvent>): Result<ParseState, OptionsError>
    decreases |events|
  {
    if events == [] then Ok(st)
    else
      var next :- step(st, events[0]);
      RunSteps(step, next, events[1..])
  }

  /** The option loop over all events. */
  function Run(st: ParseState, events: seq<OptEvent>, env: OptionsEnv): Result<ParseState, OptionsError> {
    RunSteps(StepOf(env), st, events)
  }

  /** `Options.init`: the loop, the check for an unpaired `--replace-cstring`, the final file
      filter and the application path taken from the first operand. */
  function Parse(events: seq<OptEvent>, operands: seq<string>, env: OptionsEnv): Result<Options, OptionsError> {
    var st :- Run(Initial(env), events, env);
    if st.pending.Some? then Fatal(LastReplaceCstringPending)
    else
      Ok(st.opts.(obfuscableFilesFilter := Filters.Or(st.whitelist, st.blacklist),
                  appDirectoryOrFile := if |operands| > 0 then Some(env.resolvedFileURL(operands[0])) else None))
  }

  /** The option loop as the program runs it. */
  method ParseOptions(events: seq<OptEvent>, operands: seq<string>, env: OptionsEnv)
    returns (r: Result<Options, OptionsError>)
    ensures r == Parse(events, operands, env)
  {
    var opts := DefaultOptions(env);
    var currentCstringToReplace: Option<string> := None;
    var whitelistFilter := Filters.NoFiles;
    var blacklistFilter := Filters.DefaultFilter;
    var i := 0;
    while i < |events|
      invariant 0 <= i <= |events|
      invariant Run(Initial(env), events, env)
             == Run(ParseState(opts, currentCstringToReplace, whitelistFilter, blacklistFilter), events[i..], env)
    {
      var st := ParseState(opts, currentCstringToReplace, whitelistFilter, blacklistFilter);
      var option := events[i].code;
      var arg := events[i].optarg;
      assert events[i..][0] == events[i] && events[i..][1..] == events[i + 1..];
      if option == OptReplaceCstring {
        if currentCstringToReplace.Some? {
          return Fatal(ReplaceCstringPending);
        }
        currentCstringToReplace := Some(arg);
      } else if option == OptReplaceWith {
        if currentCstringToReplace.None? {
          return Fatal(ReplaceWithoutCstring);
        }
        var currentCstring := currentCstringToReplace.value;
        if Utf8Length(currentCstring) < Utf8Length(arg) {
          return Fatal(ReplacementTooLong(currentCstring, arg));
        }
        opts := opts.(cstringsReplacements := opts.cstringsReplacements[currentCstring := arg]);
        currentCstringToReplace := None;
      } else if option == OptObfuscateFramework {
        whitelistFilter := Filters.Or(whitelistFilter, Filters.IsFramework(arg));
      } else if option == OptSkipFramework {
        blacklistFilter := Filters.And(blacklistFilter, Filters.SkipFramework(arg));
      } else if option == OptSkipAllFrameworks {
        blacklistFilter := Filters.And(blacklistFilter, Filters.SkipAllFrameworks);
      } else if Switching(option) {
        opts := Switch(opts, option);
      } else if Recording(option) {
        var recorded := Record(opts, events[i], env);
        if recorded.Fatal? {
          return Fatal(recorded.error);
        }
        opts := recorded.value;
      } else {
        return Fatal(UnexpectedArgument(option));
      }
      i := i + 1;
    }
    if currentCstringToReplace.Some? {
      return Fatal(LastReplaceCstringPending);
    }
    var appDirectory: Option<string> := None;
    if 0 < |operands| {
      appDirectory := Some(operands[0]);
    }
    opts := opts.(obfuscableFilesFilter := Filters.Or(whitelistFilter, blacklistFilter));
    opts := opts.(appDirectoryOrFile := if appDirectory.Some? then Some(env.resolvedFileURL(appDirectory.value)) else None);
    assert events[i..] == [];
    return Ok(opts);
  }

  // What the options add up to, stated over the events.

  /** Whether some event carries `code`. */
  predicate Has(events: seq<OptEvent>, code: int) {
    events != [] && (events[0].code == code || Has(events[1..], code))
  }

  /** The arguments of the events that carry `code`, in order. */
  function Args(events: seq<OptEvent>, code: int): (args: seq<string>)
    ensures forall a :: a in args <==> OptEvent(code, a) in events
  {
    if events == [] then []
    else
      assert events == [events[0]] + events[1..];
      ArgIf(events[0], code) + Args(events[1..], code)
  }

  /** The comma-separated names of the events that carry `code`, in order. */
  function Pieces(events: seq<OptEvent>, code: int): seq<string> {
    if events == [] then []
    else PiecesIf(events[0], code) + Pieces(events[1..], code)
  }

  /** The sections named by the `--erase-section` events, in order. */
  function Sections(events: seq<OptEvent>): seq<EraseSectionConfiguration> {
    if events == [] then []
    else SectionIf(events[0]) + Sections(events[1..])
  }

  /** The argument of the last event that carries `code`. */
  function LastArg(events: seq<OptEvent>, code: int): (r: Option<string>)
    ensures r.Some? <==> Has(events, code)
  {
    if events == [] then None
    else
      var later := LastArg(events[1..], code);
      if later.Some? then later
      else if events[0].code == code then Some(events[0].optarg)
      else None
  }

  /** The `--replace-cstring` and `--replace-cstring-with` events, in order. */
  function CstringEvents(events: seq<OptEvent>): seq<OptEvent> {
    if events == [] then []
    else
      (if (events[0].code == OptReplaceCstring || events[0].code == OptReplaceWith) then [events[0]] else []) + CstringEvents(events[1..])
  }

  /** `--replace-cstring` and `--replace-cstring-with` take turns, starting with the former. */
  predicate Alternates(cs: seq<OptEvent>) {
    forall i :: 0 <= i < |cs| ==> cs[i].code == (if i % 2 == 0 then OptReplaceCstring else OptReplaceWith)
  }

  /** The replacements that consecutive pairs record, a later pair overwriting an earlier one. */
  function FoldPairs(m: map<string, string>, cs: seq<OptEvent>): map<string, string>
    decreases |cs|
  {
    if |cs| < 2 then m else FoldPairs(m[cs[0].optarg := cs[1].optarg], cs[2..])
  }

  /** Each `--replace-cstring-with` argument takes no more UTF-8 bytes than the
      `--replace-cstring` argument before it. */
  predicate PairsFit(cs: seq<OptEvent>) {
    forall i :: 1 <= i < |cs| && i % 2 == 1 ==> Utf8Length(cs[i].optarg) <= Utf8Length(cs[i - 1].optarg)
  }

  /** The `--replace-cstring` still waiting, as an event. */
  function Waiting(st: ParseState): seq<OptEvent> {
    match st.pending
    case None => []
    case Some(cstring) => [OptEvent(OptReplaceCstring, cstring)]
  }

  /** What one pass does to the C-string state: `--replace-cstring` needs nothing waiting and
      leaves its argument waiting, `--replace-cstring-with` needs one waiting and records the
      pair, every other option leaves both alone. */
  predicate PairsOnePass(st: ParseState, e: OptEvent, next: ParseState) {
    && (e.code == OptReplaceCstring ==>
          st.pending == None && next.pending == Some(e.optarg)
          && next.opts.cstringsReplacements == st.opts.cstringsReplacements)
    && (e.code == OptReplaceWith ==>
          st.pending.Some? && next.pending == None
          && next.opts.cstringsReplacements == st.opts.cstringsReplacements[st.pending.value := e.optarg])
    && (e.code != OptReplaceCstring && e.code != OptReplaceWith ==>
          next.pending == st.pending && next.opts.cstringsReplacements == st.opts.cstringsReplacements)
  }

  ghost predicate PairsCstrings(step: Stepper) {
    forall st, e :: step(st, e).Ok? ==> PairsOnePass(st, e, step(st, e).value)
  }

  /** The part of `PairsOnePass` about what is waiting. */
  predicate WaitingOnePass(st: ParseState, e: OptEvent, next: ParseState) {
    && (e.code == OptReplaceCstring ==> st.pending == None && next.pending == Some(e.optarg))
    && (e.code == OptReplaceWith ==> st.pending.Some? && next.pending == None)
    && (e.code != OptReplaceCstring && e.code != OptReplaceWith ==> next.pending == st.pending)
  }

  ghost predicate PairsWaiting(step: Stepper) {
    forall st, e :: step(st, e).Ok? ==> WaitingOnePass(st, e, step(st, e).value)
  }

  lemma PairsKeepWaiting(step: Stepper)
    requires PairsCstrings(step)
    ensures PairsWaiting(step)
  {
    forall st, e | step(st, e).Ok? ensures WaitingOnePass(st, e, step(st, e).value) {
      assert PairsOnePass(st, e, step(st, e).value);
    }
  }

  /** The option loop's pass treats the C-string options as a pairing. */
  lemma StepPairsCstrings(env: OptionsEnv)
    ensures PairsCstrings(StepOf(env))
  {
    forall st, e | StepOf(env)(st, e).Ok? ensures PairsOnePass(st, e, StepOf(env)(st, e).value) {
      assert StepOf(env)(st, e) == Step(st, e, env);
      StepPairs(st, e, env);
    }
  }

  lemma StepPairs(st: ParseState, e: OptEvent, env: OptionsEnv)
    requires Step(st, e, env).Ok?
    ensures PairsOnePass(st, e, Step(st, e, env).value)
  {
    var next := Step(st, e, env).value;
    if e.code == OptReplaceCstring || e.code == OptReplaceWith {
    } else if Switching(e.code) {
      assert next == st.(opts := Switch(st.opts, e.code));
    } else if Recording(e.code) {
      assert next == st.(opts := Record(st.opts, e, env).value);
    }
  }

  /** A completed pair in front of alternating events keeps them alternating. */
  lemma AlternatesAfterPair(cs: seq<OptEvent>)
    requires |cs| >= 2 && cs[0].code == OptReplaceCstring && cs[1].code == OptReplaceWith
    requires Alternates(cs[2..])
    ensures Alternates(cs)
  {
    forall i | 2 <= i < |cs|
      ensures cs[i].code == (if i % 2 == 0 then OptReplaceCstring else OptReplaceWith)
    {
      assert cs[i] == cs[2..][i - 2];
    }
  }

  /** A fitting pair in front of fitting pairs keeps them fitting. */
  lemma FitsAfterPair(cs: seq<OptEvent>)
    requires |cs| >= 2 && Utf8Length(cs[1].optarg) <= Utf8Length(cs[0].optarg)
    requires PairsFit(cs[2..])
    ensures PairsFit(cs)
  {
    forall i | 3 <= i < |cs| && i % 2 == 1
      ensures Utf8Length(cs[i].optarg) <= Utf8Length(cs[i - 1].optarg)
    {
      assert cs[i] == cs[2..][i - 2] && cs[i - 1] == cs[2..][i - 3];
    }
  }

  /** A loop that pairs C-string options makes them alternate. */
  lemma {:induction false} RunPairsAlternate(step: Stepper, st: ParseState, events: seq<OptEvent>, st': ParseState)
    requires PairsWaiting(step)
    requires RunSteps(step, st, events) == Ok(st')
    ensures Alternates(Waiting(st) + CstringEvents(events))
    decreases |events|
  {
    var cs := Waiting(st) + CstringEvents(events);
    if events == [] {
      assert cs == Waiting(st);
    } else {
      var e := events[0];
      assert step(st, e).Ok?;
      var next := step(st, e).value;
      assert RunSteps(step, next, events[1..]) == Ok(st');
      assert WaitingOnePass(st, e, next);
      RunPairsAlternate(step, next, events[1..], st');
      var rest := Waiting(next) + CstringEvents(events[1..]);
      if e.code == OptReplaceWith {
        assert cs == [OptEvent(OptReplaceCstring, st.pending.value), e] + rest;
        assert cs[2..] == rest;
        AlternatesAfterPair(cs);
      } else {
        assert cs == rest;
      }
    }
  }

  /** A loop that pairs C-string options leaves a `--replace-cstring` waiting exactly when an
      odd number of them has been seen. */
  lemma {:induction false} RunPairsParity(step: Stepper, st: ParseState, events: seq<OptEvent>, st': ParseState)
    requires PairsWaiting(step)
    requires RunSteps(step, st, events) == Ok(st')
    ensures |Waiting(st) + CstringEvents(events)| % 2 == |Waiting(st')|
    decreases |events|
  {
    if events != [] {
      var e := events[0];
      assert step(st, e).Ok?;
      var next := step(st, e).value;
      assert RunSteps(step, next, events[1..]) == Ok(st');
      assert WaitingOnePass(st, e, next);
      RunPairsParity(step, next, events[1..], st');
      var n := |Waiting(next) + CstringEvents(events[1..])|;
      assert |Waiting(st) + CstringEvents(events)| == if e.code == OptReplaceWith then n + 2 else n;
    }
  }

  /** A loop that pairs C-string options records each pair, a later pair overwriting an
      earlier one. */
  lemma {:induction false} RunPairsCstrings(step: Stepper, st: ParseState, events: seq<OptEvent>, st': ParseState)
    requires PairsCstrings(step)
    requires RunSteps(step, st, events) == Ok(st')
    ensures st'.opts.cstringsReplacements == FoldPairs(st.opts.cstringsReplacements, Waiting(st) + CstringEvents(events))
    decreases |events|
  {
    var cs := Waiting(st) + CstringEvents(events);
    if events == [] {
      assert cs == Waiting(st);
    } else {
      var e := events[0];
      assert step(st, e).Ok?;
      var next := step(st, e).value;
      assert RunSteps(step, next, events[1..]) == Ok(st');
      assert PairsOnePass(st, e, next);
      RunPairsCstrings(step, next, events[1..], st');
      var rest := Waiting(next) + CstringEvents(events[1..]);
      if e.code == OptReplaceWith {
        assert cs == [OptEvent(OptReplaceCstring, st.pending.value), e] + rest;
        assert cs[2..] == rest;
      } else {
        assert cs == rest;
      }
    }
  }

  /** A loop that pairs C-string options records only pairs that fit. */
  lemma {:induction false} RunPairsFit(step: Stepper, st: ParseState, events: seq<OptEvent>, st': ParseState)
    requires PairsCstrings(step) && KeepsFitting(step)
    requires RunSteps(step, st, events) == Ok(st')
    ensures PairsFit(Waiting(st) + CstringEvents(events))
    decreases |events|
  {
    var cs := Waiting(st) + CstringEvents(events);
    if events == [] {
      assert cs == Waiting(st);
    } else {
      var e := events[0];
      assert step(st, e).Ok?;
      var next := step(st, e).value;
      assert RunSteps(step, next, events[1..]) == Ok(st');
      assert PairsOnePass(st, e, next) && FitsOnePass(st, e, next);
      RunPairsFit(step, next, events[1..], st');
      var rest := Waiting(next) + CstringEvents(events[1..]);
      if e.code == OptReplaceWith {
        assert cs == [OptEvent(OptReplaceCstring, st.pending.value), e] + rest;
        assert cs[2..] == rest;
        FitsAfterPair(cs);
      } else {
        assert cs == rest;
      }
    }
  }

  /** After the loop and the final check, the C-string events come in pairs, no replacement of
      a pair is longer than its C string, and the replacements are exactly what those pairs
      record, a later pair winning. */
  lemma CstringsComeInPairs(events: seq<OptEvent>, operands: seq<string>, env: OptionsEnv)
    requires Parse(events, operands, env).Ok?
    ensures var cs := CstringEvents(events);
      && Alternates(cs) && |cs| % 2 == 0 && PairsFit(cs)
      && Parse(events, operands, env).value.cstringsReplacements == FoldPairs(map[], cs)
  {
    var st' := Run(Initial(env), events, env).value;
    StepPairsCstrings(env);
    PairsKeepWaiting(StepOf(env));
    RunPairsAlternate(StepOf(env), Initial(env), events, st');
    RunPairsParity(StepOf(env), Initial(env), events, st');
    RunPairsCstrings(StepOf(env), Initial(env), events, st');
    StepKeepsFitting(env);
    RunPairsFit(StepOf(env), Initial(env), events, st');
    assert Waiting(Initial(env)) + CstringEvents(events) == CstringEvents(events);
    assert Parse(events, operands, env).value.cstringsReplacements == st'.opts.cstringsReplacements;
  }

  /** A `--replace-cstring` left without its `--replace-cstring-with` (or one too many of
      either) ends the run. */
  lemma UnpairedCstringIsFatal(events: seq<OptEvent>, operands: seq<string>, env: OptionsEnv)
    requires |CstringEvents(events)| % 2 == 1
    ensures Parse(events, operands, env).Fatal?
  {
    if Parse(events, operands, env).Ok? {
      CstringsComeInPairs(events, operands, env);
    }
  }

  /** No replacement is longer, in UTF-8 bytes, than the C string it replaces. */
  predicate NoneLonger(m: map<string, string>) {
    forall cstring :: cstring in m ==> Utf8Length(m[cstring]) <= Utf8Length(cstring)
  }

  /** A pass records only replacements that fit, and a `--replace-cstring-with` passes only
      when its argument fits in the waiting C string. */
  predicate FitsOnePass(st: ParseState, e: OptEvent, next: ParseState) {
    && (NoneLonger(st.opts.cstringsReplacements) ==> NoneLonger(next.opts.cstringsReplacements))
    && (e.code == OptReplaceWith && st.pending.Some? ==> Utf8Length(e.optarg) <= Utf8Length(st.pending.value))
  }

  ghost predicate KeepsFitting(step: Stepper) {
    forall st, e :: step(st, e).Ok? ==> FitsOnePass(st, e, step(st, e).value)
  }

  lemma StepKeepsFitting(env: OptionsEnv)
    ensures KeepsFitting(StepOf(env))
  {
    forall st, e | StepOf(env)(st, e).Ok? ensures FitsOnePass(st, e, StepOf(env)(st, e).value) {
      assert StepOf(env)(st, e) == Step(st, e, env);
    }
  }

  lemma {:induction false} RunKeepsReplacementsShort(step: Stepper, st: ParseState, events: seq<OptEvent>, st': ParseState)
    requires KeepsFitting(step)
    requires RunSteps(step, st, events) == Ok(st')
    requires NoneLonger(st.opts.cstringsReplacements)
    ensures NoneLonger(st'.opts.cstringsReplacements)
    decreases |events|
  {
    if events != [] {
      var next := step(st, events[0]).value;
      assert FitsOnePass(st, events[0], next);
      RunKeepsReplacementsShort(step, next, events[1..], st');
    }
  }

  /** Every recorded replacement fits in the C string it replaces. */
  lemma ReplacementsNeverLonger(events: seq<OptEvent>, operands: seq<string>, env: OptionsEnv)
    requires Parse(events, operands, env).Ok?
    ensures NoneLonger(Parse(events, operands, env).value.cstringsReplacements)
  {
    var st' := Run(Initial(env), events, env).value;
    StepKeepsFitting(env);
    RunKeepsReplacementsShort(StepOf(env), Initial(env), events, st');
  }

  /** What one pass does to the fields that an option switches. */
  predicate SwitchesOnePass(o: Options, code: int, n: Options) {
    && n.quiet == (o.quiet || code == OptQuiet)
    && n.verbose == (o.verbose || code == OptVerbose)
    && n.debug == (o.debug || code == OptDebug)
    && n.help == (o.help || code == OptHelp)
    && n.dryrun == (o.dryrun || code == OptDryRun)
    && n.eraseMethType == (o.eraseMethType || code == OptEraseMethType)
    && n.machOViewDoom == (o.machOViewDoom || code == OptMachOViewDoom)
    && n.eraseSymtab == (o.eraseSymtab && code != OptPreserveSymtab)
    && n.swiftReflectionObfuscation == (o.swiftReflectionObfuscation || code == OptSwiftReflection)
    && n.reportTarget == (if code == OptReportToConsole then Console else o.reportTarget)
    && n.analyzeDependencies == (o.analyzeDependencies && code != OptXxNoAnalyzeDependencies)
    && n.dumpMetadata == (o.dumpMetadata || code == OptXxDumpMetadata)
    && n.unknownOption == (o.unknownOption || code == OptUnknownOption)
  }

  ghost predicate Switches(step: Stepper) {
    forall st, e :: step(st, e).Ok? ==> SwitchesOnePass(st.opts, e.code, step(st, e).value.opts)
  }

  lemma SwitchSwitches(o: Options, code: int)
    ensures SwitchesOnePass(o, code, Switch(o, code))
  {
  }

  /** An option that switches nothing and touches only recorded fields leaves every switch alone. */
  lemma RecordSwitchesNothing(o: Options, code: int, n: Options)
    requires !Switching(code)
    requires n == o.(manglerType := n.manglerType, objcOptions := n.objcOptions, eraseSections := n.eraseSections,
                     sourceFileNamesPrefixes := n.sourceFileNamesPrefixes, skippedSymbolsSources := n.skippedSymbolsSources,
                     skippedSymbolsLists := n.skippedSymbolsLists, findSymbols := n.findSymbols)
    ensures SwitchesOnePass(o, code, n)
  {
  }

  /** The C-string and file-filter options leave every switch alone. */
  lemma StepSwitchesOutside(st: ParseState, e: OptEvent, env: OptionsEnv)
    requires !Switching(e.code) && !Recording(e.code) && Step(st, e, env).Ok?
    ensures SwitchesOnePass(st.opts, e.code, Step(st, e, env).value.opts)
  {
    var n := Step(st, e, env).value.opts;
    if e.code == OptReplaceCstring {
      assert n == st.opts;
    } else if e.code == OptReplaceWith {
      assert n == st.opts.(cstringsReplacements := n.cstringsReplacements);
    } else {
      assert n == st.opts;
    }
  }

  lemma StepSwitchesOnce(st: ParseState, e: OptEvent, env: OptionsEnv)
    requires Step(st, e, env).Ok?
    ensures SwitchesOnePass(st.opts, e.code, Step(st, e, env).value.opts)
  {
    if Switching(e.code) {
      assert Step(st, e, env).value.opts == Switch(st.opts, e.code);
      SwitchSwitches(st.opts, e.code);
    } else if Recording(e.code) {
      assert Step(st, e, env).value.opts == Recorded(st.opts, e, env);
      RecordSwitchesNothing(st.opts, e.code, Recorded(st.opts, e, env));
    } else {
      StepSwitchesOutside(st, e, env);
    }
  }

  lemma StepSwitches(env: OptionsEnv)
    ensures Switches(StepOf(env))
  {
    forall st, e | StepOf(env)(st, e).Ok? ensures SwitchesOnePass(st.opts, e.code, StepOf(env)(st, e).value.opts) {
      assert StepOf(env)(st, e) == Step(st, e, env);
      StepSwitchesOnce(st, e, env);
    }
  }

  lemma {:induction false} RunSwitches(step: Stepper, st: ParseState, events: seq<OptEvent>, st': ParseState)
    requires Switches(step)
    requires RunSteps(step, st, events) == Ok(st')
    ensures var o, n := st.opts, st'.opts;
      && n.quiet == (o.quiet || Has(events, OptQuiet))
      && n.verbose == (o.verbose || Has(events, OptVerbose))
      && n.debug == (o.debug || Has(events, OptDebug))
      && n.help == (o.help || Has(events, OptHelp))
      && n.dryrun == (o.dryrun || Has(events, OptDryRun))
      && n.eraseMethType == (o.eraseMethType || Has(events, OptEraseMethType))
      && n.machOViewDoom == (o.machOViewDoom || Has(events, OptMachOViewDoom))
      && n.eraseSymtab == (o.eraseSymtab && !Has(events, OptPreserveSymtab))
      && n.swiftReflectionObfuscation == (o.swiftReflectionObfuscation || Has(events, OptSwiftReflection))
      && n.reportTarget == (if Has(events, OptReportToConsole) then Console else o.reportTarget)
      && n.analyzeDependencies == (o.analyzeDependencies && !Has(events, OptXxNoAnalyzeDependencies))
      && n.dumpMetadata == (o.dumpMetadata || Has(events, OptXxDumpMetadata))
      && n.unknownOption == (o.unknownOption || Has(events, OptUnknownOption))
    decreases |events|
  {
    if events != [] {
      var next := step(st, events[0]).value;
      assert SwitchesOnePass(st.opts, events[0].code, next.opts);
      RunSwitches(step, next, events[1..], st');
    }
  }

  /** Each switch is on exactly when its option was given (`--preserve-symtab` and
      `--xx-no-analyze-dependencies` turn theirs off, `--report-to-console` picks the console);
      in particular `unknownOption` records whether `getopt_long` met an option it does not know. */
  lemma SwitchesFollowOptions(events: seq<OptEvent>, operands: seq<string>, env: OptionsEnv)
    requires Parse(events, operands, env).Ok?
    ensures var o := Parse(events, operands, env).value;
      && o.quiet == Has(events, OptQuiet)
      && o.verbose == Has(events, OptVerbose)
      && o.debug == Has(events, OptDebug)
      && o.help == Has(events, OptHelp)
      && o.dryrun == Has(events, OptDryRun)
      && o.eraseMethType == Has(events, OptEraseMethType)
      && o.machOViewDoom == Has(events, OptMachOViewDoom)
      && o.eraseSymtab == !Has(events, OptPreserveSymtab)
      && o.swiftReflectionObfuscation == Has(events, OptSwiftReflection)
      && o.reportTarget == (if Has(events, OptReportToConsole) then Console else NoTarget)
      && o.analyzeDependencies == !Has(events, OptXxNoAnalyzeDependencies)
      && o.dumpMetadata == Has(events, OptXxDumpMetadata)
      && o.unknownOption == Has(events, OptUnknownOption)
  {
    var st' := Run(Initial(env), events, env).value;
    StepSwitches(env);
    RunSwitches(StepOf(env), Initial(env), events, st');
  }

  /** What one pass does to the recorded lists and the mangler: each grows by what its own
      option brings, and `-m` replaces the mangler. */
  predicate RecordsOnePass(o: Options, e: OptEvent, n: Options, env: OptionsEnv) {
    ListsOnePass(o, e, n) && SectionsOnePass(o, e, n) && ManglerOnePass(o, e, n, env)
  }

  /** The lists of `Options` that grow by a name or a comma-separated list of names. */
  datatype ListField =
    | ClassNames | ClassPatterns | SelectorNames | SelectorPatterns
    | FileNamePrefixes | SymbolSources | SymbolLists | SymbolsToFind

  function ListOf(o: Options, l: ListField): seq<string> {
    match l
    case ClassNames => o.objcOptions.classesBlacklist
    case ClassPatterns => o.objcOptions.classesBlacklistRegex
    case SelectorNames => o.objcOptions.selectorsBlacklist
    case SelectorPatterns => o.objcOptions.selectorsBlacklistRegex
    case FileNamePrefixes => o.sourceFileNamesPrefixes
    case SymbolSources => o.skippedSymbolsSources
    case SymbolLists => o.skippedSymbolsLists
    case SymbolsToFind => o.findSymbols
  }

  /** What one event adds to a list. */
  function Added(e: OptEvent, l: ListField): seq<string> {
    match l
    case ClassNames => PiecesIf(e, OptObjcBlacklistClass)
    case ClassPatterns => ArgIf(e, OptObjcBlacklistClassRegex)
    case SelectorNames => PiecesIf(e, OptObjcBlacklistSelector)
    case SelectorPatterns => ArgIf(e, OptObjcBlacklistSelectorRegex)
    case FileNamePrefixes => ArgIf(e, OptEraseSourceFileNames)
    case SymbolSources => ArgIf(e, OptSkipSymbolsFromSources)
    case SymbolLists => ArgIf(e, OptSkipSymbolsFromList)
    case SymbolsToFind => PiecesIf(e, OptXxFindSymbol)
  }

  /** What all the events add to a list. */
  function Gathered(events: seq<OptEvent>, l: ListField): seq<string> {
    match l
    case ClassNames => Pieces(events, OptObjcBlacklistClass)
    case ClassPatterns => Args(events, OptObjcBlacklistClassRegex)
    case SelectorNames => Pieces(events, OptObjcBlacklistSelector)
    case SelectorPatterns => Args(events, OptObjcBlacklistSelectorRegex)
    case FileNamePrefixes => Args(events, OptEraseSourceFileNames)
    case SymbolSources => Args(events, OptSkipSymbolsFromSources)
    case SymbolLists => Args(events, OptSkipSymbolsFromList)
    case SymbolsToFind => Pieces(events, OptXxFindSymbol)
  }

  lemma GatheredStep(events: seq<OptEvent>, l: ListField)
    requires events != []
    ensures Gathered(events, l) == Added(events[0], l) + Gathered(events[1..], l)
  {
  }

  predicate ListsOnePass(o: Options, e: OptEvent, n: Options) {
    forall l :: ListOf(n, l) == ListOf(o, l) + Added(e, l)
  }

  predicate SectionsOnePass(o: Options, e: OptEvent, n: Options) {
    n.eraseSections == o.eraseSections + SectionIf(e)
  }

  predicate ManglerOnePass(o: Options, e: OptEvent, n: Options, env: OptionsEnv) {
    n.manglerType == (if e.code == OptManglerKey then ManglerNamed(e.optarg, env) else o.manglerType)
  }

  ghost predicate GathersLists(step: Stepper) {
    forall st, e :: step(st, e).Ok? ==> ListsOnePass(st.opts, e, step(st, e).value.opts)
  }

  /** What `GathersLists` says about one list. */
  ghost predicate GathersList(step: Stepper, l: ListField) {
    forall st, e :: step(st, e).Ok? ==> ListOf(step(st, e).value.opts, l) == ListOf(st.opts, l) + Added(e, l)
  }

  ghost predicate GathersSections(step: Stepper) {
    forall st, e :: step(st, e).Ok? ==> SectionsOnePass(st.opts, e, step(st, e).value.opts)
  }

  ghost predicate PicksMangler(step: Stepper, env: OptionsEnv) {
    forall st, e :: step(st, e).Ok? ==> ManglerOnePass(st.opts, e, step(st, e).value.opts, env)
  }

  /** An option that records nothing and leaves the recorded fields alone adds nothing to them. */
  lemma KeepsRecords(o: Options, e: OptEvent, n: Options, env: OptionsEnv)
    requires !Recording(e.code)
    requires n.objcOptions == o.objcOptions && n.eraseSections == o.eraseSections
    requires n.sourceFileNamesPrefixes == o.sourceFileNamesPrefixes && n.findSymbols == o.findSymbols
    requires n.skippedSymbolsSources == o.skippedSymbolsSources && n.skippedSymbolsLists == o.skippedSymbolsLists
    requires n.manglerType == o.manglerType
    ensures RecordsOnePass(o, e, n, env)
  {
    assert PiecesIf(e, OptObjcBlacklistClass) == [] && PiecesIf(e, OptObjcBlacklistSelector) == [];
    assert PiecesIf(e, OptXxFindSymbol) == [] && SectionIf(e) == [];
  }

  lemma StepRecordsOutside(st: ParseState, e: OptEvent, env: OptionsEnv)
    requires !Switching(e.code) && !Recording(e.code) && Step(st, e, env).Ok?
    ensures RecordsOnePass(st.opts, e, Step(st, e, env).value.opts, env)
  {
    var n := Step(st, e, env).value.opts;
    if e.code == OptReplaceCstring {
      assert n == st.opts;
    } else if e.code == OptReplaceWith {
      assert n == st.opts.(cstringsReplacements := n.cstringsReplacements);
    } else {
      assert n == st.opts;
    }
    KeepsRecords(st.opts, e, n, env);
  }

  lemma RecordedRecords(o: Options, e: OptEvent, env: OptionsEnv)
    ensures RecordsOnePass(o, e, Recorded(o, e, env), env)
  {
    var n := Recorded(o, e, env);
    forall l ensures ListOf(n, l) == ListOf(o, l) + Added(e, l) {
    }
  }

  lemma StepRecordsOnce(st: ParseState, e: OptEvent, env: OptionsEnv)
    requires Step(st, e, env).Ok?
    ensures RecordsOnePass(st.opts, e, Step(st, e, env).value.opts, env)
  {
    if Switching(e.code) {
      var n := Switch(st.opts, e.code);
      assert Step(st, e, env).value.opts == n;
      assert n.objcOptions == st.opts.objcOptions && n.eraseSections == st.opts.eraseSections;
      KeepsRecords(st.opts, e, n, env);
    } else if Recording(e.code) {
      assert Step(st, e, env).value.opts == Recorded(st.opts, e, env);
      RecordedRecords(st.opts, e, env);
    } else {
      StepRecordsOutside(st, e, env);
    }
  }

  lemma StepRecords(env: OptionsEnv)
    ensures GathersLists(StepOf(env)) && GathersSections(StepOf(env)) && PicksMangler(StepOf(env), env)
  {
    forall st, e | StepOf(env)(st, e).Ok? ensures RecordsOnePass(st.opts, e, StepOf(env)(st, e).value.opts, env) {
      assert StepOf(env)(st, e) == Step(st, e, env);
      StepRecordsOnce(st, e, env);
    }
  }

  /** Over a run, each list has gathered what its option brought, in order. */
  lemma {:induction false} RunLists(step: Stepper, l: ListField, st: ParseState, events: seq<OptEvent>, st': ParseState)
    requires GathersList(step, l)
    requires RunSteps(step, st, events) == Ok(st')
    ensures ListOf(st'.opts, l) == ListOf(st.opts, l) + Gathered(events, l)
    decreases |events|
  {
    if events != [] {
      var e := events[0];
      assert step(st, e).Ok?;
      var next := step(st, e).value;
      assert RunSteps(step, next, events[1..]) == Ok(st');
      var before, added := ListOf(st.opts, l), Added(e, l);
      assert ListOf(next.opts, l) == before + added;
      RunLists(step, l, next, events[1..], st');
      GatheredStep(events, l);
      assert (before + added) + Gathered(events[1..], l) == before + (added + Gathered(events[1..], l));
    }
  }

  /** Over a run, the erased sections are those the `--erase-section` options named, in order. */
  lemma {:induction false} RunSections(step: Stepper, st: ParseState, events: seq<OptEvent>, st': ParseState)
    requires GathersSections(step)
    requires RunSteps(step, st, events) == Ok(st')
    ensures st'.opts.eraseSections == st.opts.eraseSections + Sections(events)
    decreases |events|
  {
    if events != [] {
      var e := events[0];
      var next := step(st, e).value;
      assert SectionsOnePass(st.opts, e, next.opts);
      RunSections(step, next, events[1..], st');
      assert Sections(events) == SectionIf(e) + Sections(events[1..]);
    }
  }

  /** Over a run, the mangler is the one the last `-m` named. */
  lemma {:induction false} RunMangler(step: Stepper, env: OptionsEnv, st: ParseState, events: seq<OptEvent>, st': ParseState)
    requires PicksMangler(step, env)
    requires RunSteps(step, st, events) == Ok(st')
    ensures st'.opts.manglerType ==
      match LastArg(events, OptManglerKey)
      case None => st.opts.manglerType
      case Some(key) => ManglerNamed(key, env)
    decreases |events|
  {
    if events != [] {
      var next := step(st, events[0]).value;
      assert ManglerOnePass(st.opts, events[0], next.opts, env);
      RunMangler(step, env, next, events[1..], st');
    }
  }

  /** The lists of `Options` hold, in command-line order, the comma-separated names of every
      `--objc-blacklist-class`, `--objc-blacklist-selector` and `--xx-find-symbol`, the argument
      of every regular-expression, `--erase-source-file-names` and `--skip-symbols-from-*`
      option and every `--erase-section`; the mangler is the one the last `-m` named, or the
      default when there was none. */
  lemma ListFollowsOptions(events: seq<OptEvent>, operands: seq<string>, env: OptionsEnv, l: ListField)
    requires Parse(events, operands, env).Ok?
    ensures ListOf(Parse(events, operands, env).value, l) == Gathered(events, l)
  {
    var st' := Run(Initial(env), events, env).value;
    StepRecords(env);
    assert GathersList(StepOf(env), l);
    RunLists(StepOf(env), l, Initial(env), events, st');
  }

  /** The sections to erase are those the `--erase-section` options named, in order. */
  lemma SectionsFollowOptions(events: seq<OptEvent>, operands: seq<string>, env: OptionsEnv)
    requires Parse(events, operands, env).Ok?
    ensures Parse(events, operands, env).value.eraseSections == Sections(events)
  {
    var st' := Run(Initial(env), events, env).value;
    StepRecords(env);
    RunSections(StepOf(env), Initial(env), events, st');
  }

  /** `-m` picks the mangler by its key (an unknown key leaves none); the last one given wins. */
  lemma ManglerFollowsOptions(events: seq<OptEvent>, operands: seq<string>, env: OptionsEnv)
    requires Parse(events, operands, env).Ok?
    ensures Parse(events, operands, env).value.manglerType ==
      match LastArg(events, OptManglerKey)
      case None => Some(env.defaultMangler)
      case Some(key) => if key in env.manglerKeys then Some(key) else None
  {
    var st' := Run(Initial(env), events, env).value;
    StepRecords(env);
    RunMangler(StepOf(env), env, Initial(env), events, st');
  }

  /** Switches never fail and leave the waiting `--replace-cstring` alone. */
  ghost predicate SwitchesPass(step: Stepper) {
    forall st: ParseState, e: OptEvent :: Switching(e.code) ==> step(st, e).Ok? && step(st, e).value.pending == st.pending
  }

  lemma StepSwitchesPass(env: OptionsEnv)
    ensures SwitchesPass(StepOf(env))
  {
    forall st: ParseState, e: OptEvent | Switching(e.code) ensures StepOf(env)(st, e).Ok? && StepOf(env)(st, e).value.pending == st.pending {
      assert StepOf(env)(st, e) == Step(st, e, env);
      assert Step(st, e, env) == Ok(st.(opts := Switch(st.opts, e.code)));
    }
  }

  lemma {:induction false} RunSwitchesPass(step: Stepper, st: ParseState, events: seq<OptEvent>)
    requires SwitchesPass(step)
    requires forall i :: 0 <= i < |events| ==> Switching(events[i].code)
    ensures RunSteps(step, st, events).Ok? && RunSteps(step, st, events).value.pending == st.pending
    decreases |events|
  {
    if events != [] {
      assert Switching(events[0].code);
      var next := step(st, events[0]).value;
      assert forall i :: 0 <= i < |events[1..]| ==> events[1..][i] == events[i + 1];
      RunSwitchesPass(step, next, events[1..]);
    }
  }

  /** A command line of switches alone always parses. */
  lemma SwitchesAlwaysParse(events: seq<OptEvent>, operands: seq<string>, env: OptionsEnv)
    requires forall i :: 0 <= i < |events| ==> Switching(events[i].code)
    ensures Parse(events, operands, env).Ok?
  {
    StepSwitchesPass(env);
    RunSwitchesPass(StepOf(env), Initial(env), events);
  }

  /** A completed pair taken off the front of alternating events leaves them alternating. */
  lemma AlternatesDropPair(cs: seq<OptEvent>)
    requires |cs| >= 2 && Alternates(cs)
    ensures Alternates(cs[2..])
  {
    forall i | 0 <= i < |cs[2..]|
      ensures cs[2..][i].code == (if i % 2 == 0 then OptReplaceCstring else OptReplaceWith)
    {
      assert cs[2..][i] == cs[i + 2];
    }
  }

  /** A pair taken off the front of fitting pairs leaves them fitting. */
  lemma FitsDropPair(cs: seq<OptEvent>)
    requires |cs| >= 2 && PairsFit(cs)
    ensures PairsFit(cs[2..])
  {
    forall i | 1 <= i < |cs[2..]| && i % 2 == 1
      ensures Utf8Length(cs[2..][i].optarg) <= Utf8Length(cs[2..][i - 1].optarg)
    {
      assert cs[2..][i] == cs[i + 2] && cs[2..][i - 1] == cs[i + 1];
    }
  }

  /** Whether the C-string state lets `e` through: a `--replace-cstring` needs nothing waiting,
      a `--replace-cstring-with` needs a waiting C string at least as long as itself. */
  predicate PairReady(st: ParseState, e: OptEvent) {
    && (e.code == OptReplaceCstring ==> st.pending.None?)
    && (e.code == OptReplaceWith ==> st.pending.Some? && Utf8Length(e.optarg) <= Utf8Length(st.pending.value))
  }

  /** An accepted event that the C-string state lets through never fails. */
  ghost predicate PassesWhenReady(step: Stepper, env: OptionsEnv) {
    forall st, e :: Accepted(e, env) && PairReady(st, e) ==> step(st, e).Ok?
  }

  lemma StepPassesWhenReady(env: OptionsEnv)
    ensures PassesWhenReady(StepOf(env), env)
  {
    forall st, e | Accepted(e, env) && PairReady(st, e) ensures StepOf(env)(st, e).Ok? {
      assert StepOf(env)(st, e) == Step(st, e, env);
      if Recording(e.code) && !(e.code == OptReplaceCstring || e.code == OptReplaceWith) {
        assert Record(st.opts, e, env).Ok?;
      }
    }
  }

  /** A loop that lets through every accepted event the C-string state is ready for completes
      on accepted events whose C-string options alternate and fit. */
  lemma {:induction false} RunPassesWhenReady(step: Stepper, env: OptionsEnv, st: ParseState, events: seq<OptEvent>)
    requires PassesWhenReady(step, env) && PairsWaiting(step)
    requires forall i :: 0 <= i < |events| ==> Accepted(events[i], env)
    requires Alternates(Waiting(st) + CstringEvents(events)) && PairsFit(Waiting(st) + CstringEvents(events))
    ensures RunSteps(step, st, events).Ok?
    decreases |events|
  {
    if events != [] {
      var e := events[0];
      var cs := Waiting(st) + CstringEvents(events);
      assert CstringEvents(events) == (if e.code == OptReplaceCstring || e.code == OptReplaceWith then [e] else []) + CstringEvents(events[1..]);
      if e.code == OptReplaceWith && st.pending.Some? {
        assert cs[1] == e && cs[0].optarg == st.pending.value;
      }
      assert Accepted(e, env) && PairReady(st, e);
      var next := step(st, e).value;
      assert WaitingOnePass(st, e, next);
      var rest := Waiting(next) + CstringEvents(events[1..]);
      if e.code == OptReplaceWith {
        assert rest == cs[2..];
        AlternatesDropPair(cs);
        FitsDropPair(cs);
      } else if e.code == OptReplaceCstring {
        assert Waiting(next) == [e];
        assert rest == cs;
      } else {
        assert rest == cs;
      }
      assert forall i :: 0 <= i < |events[1..]| ==> events[1..][i] == events[i + 1];
      RunPassesWhenReady(step, env, next, events[1..]);
    }
  }

  /** The converse of `EveryEventAccepted` and `CstringsComeInPairs`: accepted events whose
      C-string options come in fitting pairs always parse. */
  lemma WellFormedEventsParse(events: seq<OptEvent>, operands: seq<string>, env: OptionsEnv)
    requires forall i :: 0 <= i < |events| ==> Accepted(events[i], env)
    requires Alternates(CstringEvents(events)) && |CstringEvents(events)| % 2 == 0 && PairsFit(CstringEvents(events))
    ensures Parse(events, operands, env).Ok?
  {
    StepPassesWhenReady(env);
    StepPairsCstrings(env);
    PairsKeepWaiting(StepOf(env));
    assert Waiting(Initial(env)) + CstringEvents(events) == CstringEvents(events);
    RunPassesWhenReady(StepOf(env), env, Initial(env), events);
    var st' := Run(Initial(env), events, env).value;
    RunPairsParity(StepOf(env), Initial(env), events, st');
  }

  // The file filter.

  /** What one pass does to the two groups of the file filter. */
  predicate FiltersOnePass(st: ParseState, e: OptEvent, next: ParseState) {
    && next.whitelist ==
         (if e.code == OptObfuscateFramework then Filters.Or(st.whitelist, Filters.IsFramework(e.optarg))
          else st.whitelist)
    && next.blacklist ==
         (if e.code == OptSkipFramework then Filters.And(st.blacklist, Filters.SkipFramework(e.optarg))
          else if e.code == OptSkipAllFrameworks then Filters.And(st.blacklist, Filters.SkipAllFrameworks)
          else st.blacklist)
  }

  ghost predicate GroupsFilters(step: Stepper) {
    forall st, e :: step(st, e).Ok? ==> FiltersOnePass(st, e, step(st, e).value)
  }

  lemma StepFiltersOnce(st: ParseState, e: OptEvent, env: OptionsEnv)
    requires Step(st, e, env).Ok?
    ensures FiltersOnePass(st, e, Step(st, e, env).value)
  {
    var next := Step(st, e, env).value;
    if Switching(e.code) || Recording(e.code) {
      assert next.whitelist == st.whitelist && next.blacklist == st.blacklist;
    }
  }

  lemma StepGroupsFilters(env: OptionsEnv)
    ensures GroupsFilters(StepOf(env))
  {
    forall st, e | StepOf(env)(st, e).Ok? ensures FiltersOnePass(st, e, StepOf(env)(st, e).value) {
      assert StepOf(env)(st, e) == Step(st, e, env);
      StepFiltersOnce(st, e, env);
    }
  }

  /** Over a run, the whitelist group admits a file when it did before or some
      `--obfuscate-framework` names it. */
  lemma {:induction false} RunWhitelist(step: Stepper, st: ParseState, events: seq<OptEvent>, st': ParseState,
                                        fenv: Filters.FilterEnv, url: Filters.Location)
    requires GroupsFilters(step)
    requires RunSteps(step, st, events) == Ok(st')
    ensures Filters.IsObfuscable(st'.whitelist, fenv, url) ==
      (Filters.IsObfuscable(st.whitelist, fenv, url)
       || exists a :: a in Args(events, OptObfuscateFramework) && fenv.isFramework(a, url))
    decreases |events|
  {
    if events != [] {
      var e := events[0];
      assert step(st, e).Ok?;
      var next := step(st, e).value;
      assert RunSteps(step, next, events[1..]) == Ok(st');
      assert FiltersOnePass(st, e, next);
      RunWhitelist(step, next, events[1..], st', fenv, url);
      assert Args(events, OptObfuscateFramework) == ArgIf(e, OptObfuscateFramework) + Args(events[1..], OptObfuscateFramework);
    }
  }

  /** Over a run, the blacklist group admits a file when it did before, no `--skip-framework`
      skips it and, after `--skip-all-frameworks`, it is not a framework. */
  lemma {:induction false} RunBlacklist(step: Stepper, st: ParseState, events: seq<OptEvent>, st': ParseState,
                                        fenv: Filters.FilterEnv, url: Filters.Location)
    requires GroupsFilters(step)
    requires RunSteps(step, st, events) == Ok(st')
    ensures Filters.IsObfuscable(st'.blacklist, fenv, url) ==
      (&& Filters.IsObfuscable(st.blacklist, fenv, url)
       && (forall a :: a in Args(events, OptSkipFramework) ==> fenv.skipFramework(a, url))
       && (Has(events, OptSkipAllFrameworks) ==> fenv.skipAllFrameworks(url)))
    decreases |events|
  {
    if events != [] {
      var e := events[0];
      assert step(st, e).Ok?;
      var next := step(st, e).value;
      assert RunSteps(step, next, events[1..]) == Ok(st');
      assert FiltersOnePass(st, e, next);
      RunBlacklist(step, next, events[1..], st', fenv, url);
      assert Args(events, OptSkipFramework) == ArgIf(e, OptSkipFramework) + Args(events[1..], OptSkipFramework);
    }
  }

  /** The final filter is the whitelist group or the blacklist group: a file is obfuscable when
      an `--obfuscate-framework` names it, or when it is obfuscable by default, no
      `--skip-framework` skips it and, after `--skip-all-frameworks`, it is not a framework. */
  lemma FilterFollowsOptions(events: seq<OptEvent>, operands: seq<string>, env: OptionsEnv,
                             fenv: Filters.FilterEnv, url: Filters.Location)
    requires Parse(events, operands, env).Ok?
    ensures Filters.IsObfuscable(Parse(events, operands, env).value.obfuscableFilesFilter, fenv, url) ==
      ((exists a :: a in Args(events, OptObfuscateFramework) && fenv.isFramework(a, url))
       || (&& fenv.isDefaultObfuscable(url)
           && (forall a :: a in Args(events, OptSkipFramework) ==> fenv.skipFramework(a, url))
           && (Has(events, OptSkipAllFrameworks) ==> fenv.skipAllFrameworks(url))))
  {
    var st' := Run(Initial(env), events, env).value;
    StepGroupsFilters(env);
    RunWhitelist(StepOf(env), Initial(env), events, st', fenv, url);
    RunBlacklist(StepOf(env), Initial(env), events, st', fenv, url);
    var filter := Parse(events, operands, env).value.obfuscableFilesFilter;
    assert filter == Filters.Or(st'.whitelist, st'.blacklist);
    assert Filters.IsObfuscable(filter, fenv, url) ==
      (Filters.IsObfuscable(st'.whitelist, fenv, url) || Filters.IsObfuscable(st'.blacklist, fenv, url));
  }

  /** The framework options may come in any order and any number of times: two command lines
      that name the same frameworks to obfuscate and to skip, and agree on
      `--skip-all-frameworks`, build filters that admit the same files. */
  lemma FilterIgnoresOrder(events1: seq<OptEvent>, events2: seq<OptEvent>, operands: seq<string>, env: OptionsEnv,
                           fenv: Filters.FilterEnv, url: Filters.Location)
    requires Parse(events1, operands, env).Ok? && Parse(events2, operands, env).Ok?
    requires forall a :: OptEvent(OptObfuscateFramework, a) in events1 <==> OptEvent(OptObfuscateFramework, a) in events2
    requires forall a :: OptEvent(OptSkipFramework, a) in events1 <==> OptEvent(OptSkipFramework, a) in events2
    requires Has(events1, OptSkipAllFrameworks) == Has(events2, OptSkipAllFrameworks)
    ensures Filters.IsObfuscable(Parse(events1, operands, env).value.obfuscableFilesFilter, fenv, url) ==
            Filters.IsObfuscable(Parse(events2, operands, env).value.obfuscableFilesFilter, fenv, url)
  {
    FilterFollowsOptions(events1, operands, env, fenv, url);
    FilterFollowsOptions(events2, operands, env, fenv, url);
    assert forall a :: a in Args(events1, OptObfuscateFramework) <==> a in Args(events2, OptObfuscateFramework);
    assert forall a :: a in Args(events1, OptSkipFramework) <==> a in Args(events2, OptSkipFramework);
  }

  // Codes the loop does not know, and arguments it refuses.

  /** What a pass accepts: a code the loop handles, a regular expression that compiles and a
      well-formed section. */
  predicate Accepted(e: OptEvent, env: OptionsEnv) {
    && Handled(e.code)
    && (e.code == OptObjcBlacklistClassRegex ==> env.compiles(e.optarg))
    && (e.code == OptObjcBlacklistSelectorRegex ==> env.compiles(e.optarg))
    && (e.code == OptEraseSection ==> EraseSection(e.optarg).Ok?)
  }

  ghost predicate AcceptsOnly(step: Stepper, env: OptionsEnv) {
    forall st, e :: step(st, e).Ok? ==> Accepted(e, env)
  }

  lemma StepAcceptsOnly(env: OptionsEnv)
    ensures AcceptsOnly(StepOf(env), env)
  {
    forall st, e | StepOf(env)(st, e).Ok? ensures Accepted(e, env) {
      assert StepOf(env)(st, e) == Step(st, e, env);
    }
  }

  lemma {:induction false} RunAcceptsOnly(step: Stepper, env: OptionsEnv, st: ParseState, events: seq<OptEvent>)
    requires AcceptsOnly(step, env)
    requires RunSteps(step, st, events).Ok?
    ensures forall i :: 0 <= i < |events| ==> Accepted(events[i], env)
    decreases |events|
  {
    if events != [] {
      RunAcceptsOnly(step, env, step(st, events[0]).value, events[1..]);
      assert forall i :: 1 <= i < |events| ==> events[i] == events[1..][i - 1];
    }
  }

  /** A code that no case of the loop handles, a blacklist expression that does not compile and
      a section that is not `SEGMENT,SECTION` each stop the run: after a successful parse every
      event was accepted. */
  lemma EveryEventAccepted(events: seq<OptEvent>, operands: seq<string>, env: OptionsEnv)
    requires Parse(events, operands, env).Ok?
    ensures forall i :: 0 <= i < |events| ==> Handled(events[i].code)
    ensures forall i :: 0 <= i < |events| && events[i].code == OptObjcBlacklistClassRegex ==> env.compiles(events[i].optarg)
    ensures forall i :: 0 <= i < |events| && events[i].code == OptObjcBlacklistSelectorRegex ==> env.compiles(events[i].optarg)
    ensures forall i :: 0 <= i < |events| && events[i].code == OptEraseSection ==> |Split(events[i].optarg, ',')| == 2
  {
    StepAcceptsOnly(env);
    RunAcceptsOnly(StepOf(env), env, Initial(env), events);
  }
}
