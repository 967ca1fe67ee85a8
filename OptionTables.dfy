/** The tables `getopt_long` reads the command line with: the short options `qvdhDm:` and the
    `longopts` array. `getopt_long` turns each option it recognises into the code of its entry
    and every option it does not recognise into `?`; those codes are the events of
    `OptionsParsing`. */
module OptionTables {
  import opened Wrappers
  import opened OptionsParsing

  /** One entry of `longopts`: `--name`, whether it takes an argument, and its code. */
  datatype LongOption = LongOption(name: string, takesArgument: bool, code: int)

  /** The short options: each letter is its own code; a `:` marks the letter before it as
      taking an argument. */
  const ShortOptions: string := "qvdhDm:"

  /** `longopts` as the program declares it. */
  const LongOptionsAsWritten: seq<LongOption> := [
    LongOption("help", false, OptHelp),
    LongOption("verbose", false, OptVerbose),
    LongOption("dry-run", false, OptDryRun),
    LongOption("erase-methtype", false, OptEraseMethType),
    LongOption("machoview-doom", false, OptMachOViewDoom),
    LongOption("preserve-symtab", false, OptPreserveSymtab),
    LongOption("objc-blacklist-class", true, OptObjcBlacklistClass),
    LongOption("objc-blacklist-class-regex", true, OptObjcBlacklistClassRegex),
    LongOption("objc-blacklist-selector", true, OptObjcBlacklistSelector),
    LongOption("objc-blacklist-selector-regex", true, OptObjcBlacklistSelectorRegex),
    LongOption("erase-section", true, OptEraseSection),
    LongOption("erase-source-file-names", true, OptEraseSourceFileNames),
    LongOption("replace-cstring", true, OptReplaceCstring),
    LongOption("replace-cstring-with", true, OptReplaceWith),
    LongOption("obfuscate-framework", true, OptObfuscateFramework),
    LongOption("skip-framework", true, OptSkipFramework),
    LongOption("skip-all-frameworks", false, OptSkipAllFrameworks),
    LongOption("mangler", true, OptManglerKey),
    LongOption("skip-symbols-from-sources", true, OptSkipSymbolsFromSources),
    LongOption("skip-symbols-from-list", true, OptSkipSymbolsFromList),
    LongOption("report-to-console", false, OptReportToConsole),
    LongOption("xx-no-analyze-dependencies", false, OptXxNoAnalyzeDependencies),
    LongOption("xx-dump-metadata", false, OptXxDumpMetadata),
    LongOption("xx-find-symbol", true, OptXxFindSymbol)]

  /** `longopts` with the three long options the usage text documents but the array lacks. */
  const LongOptionsCorrected: seq<LongOption> := LongOptionsAsWritten + Undeclared

  /** The long options the usage text documents and `longopts` lacks. */
  const Undeclared: seq<LongOption> := [
    LongOption("quiet", false, OptQuiet),
    LongOption("debug", false, OptDebug),
    LongOption("swift-reflection", false, OptSwiftReflection)]

  /** Whether `code` is the code of a letter of the short options. */
  predicate IsShortCode(code: int) {
    exists i :: 0 <= i < |ShortOptions| && ShortOptions[i] != ':' && ShortOptions[i] as int == code
  }

  /** The code `getopt_long` returns for `--name` when `name` is spelt out in full: the one of
      the first entry with that name, or `?` when there is none. */
  function LongCode(table: seq<LongOption>, name: string): (code: int)
    ensures if exists i :: 0 <= i < |table| && table[i].name == name
            then exists i :: 0 <= i < |table| && table[i].name == name && table[i].code == code
            else code == OptUnknownOption
  {
    if table == [] then OptUnknownOption
    else if table[0].name == name then table[0].code
    else LongCode(table[1..], name)
  }

  /** Whether `--prefix` could abbreviate `--name`: `name` begins with `prefix`. */
  predicate BeginsWith(name: string, prefix: string) {
    |prefix| <= |name| && name[..|prefix|] == prefix
  }

  /** Whether `getopt_long` can return `code` with these tables: for an option it does not know,
      for a short option, or for an entry of the long table. */
  predicate Produces(table: seq<LongOption>, code: int) {
    || code == OptUnknownOption
    || IsShortCode(code)
    || exists i :: 0 <= i < |table| && table[i].code == code
  }

  /** Whether `events` could have come from `getopt_long` with this table. */
  predicate FromTable(events: seq<OptEvent>, table: seq<LongOption>) {
    forall i :: 0 <= i < |events| ==> Produces(table, events[i].code)
  }

  lemma {:induction false} HasSome(events: seq<OptEvent>, code: int)
    requires Has(events, code)
    ensures exists i :: 0 <= i < |events| && events[i].code == code
    decreases |events|
  {
    if events[0].code != code {
      HasSome(events[1..], code);
      var i :| 0 <= i < |events[1..]| && events[1..][i].code == code;
      assert events[i + 1].code == code;
    }
  }

  /** The codes of the entries, spelt out. */
  lemma WrittenCodes()
    ensures |LongOptionsAsWritten| == 24
    ensures && LongOptionsAsWritten[0].code == OptHelp && LongOptionsAsWritten[1].code == OptVerbose
            && LongOptionsAsWritten[2].code == OptDryRun && LongOptionsAsWritten[3].code == OptEraseMethType
            && LongOptionsAsWritten[4].code == OptMachOViewDoom && LongOptionsAsWritten[5].code == OptPreserveSymtab
            && LongOptionsAsWritten[6].code == OptObjcBlacklistClass && LongOptionsAsWritten[7].code == OptObjcBlacklistClassRegex
    ensures && LongOptionsAsWritten[8].code == OptObjcBlacklistSelector && LongOptionsAsWritten[9].code == OptObjcBlacklistSelectorRegex
            && LongOptionsAsWritten[10].code == OptEraseSection && LongOptionsAsWritten[11].code == OptEraseSourceFileNames
            && LongOptionsAsWritten[12].code == OptReplaceCstring && LongOptionsAsWritten[13].code == OptReplaceWith
            && LongOptionsAsWritten[14].code == OptObfuscateFramework && LongOptionsAsWritten[15].code == OptSkipFramework
    ensures && LongOptionsAsWritten[16].code == OptSkipAllFrameworks && LongOptionsAsWritten[17].code == OptManglerKey
            && LongOptionsAsWritten[18].code == OptSkipSymbolsFromSources && LongOptionsAsWritten[19].code == OptSkipSymbolsFromList
            && LongOptionsAsWritten[20].code == OptReportToConsole && LongOptionsAsWritten[21].code == OptXxNoAnalyzeDependencies
            && LongOptionsAsWritten[22].code == OptXxDumpMetadata && LongOptionsAsWritten[23].code == OptXxFindSymbol
  {
    var t := LongOptionsAsWritten;
    assert t[0] == LongOption("help", false, OptHelp);
  }

  /** The short options are `-q`, `-v`, `-d`, `-h`, `-D` and `-m`. */
  lemma ShortCodesAre(code: int)
    ensures IsShortCode(code) <==>
      code in {OptQuiet, OptVerbose, OptDebug, OptHelp, OptMachOViewDoom, OptManglerKey}
  {
    if code == OptQuiet { assert ShortOptions[0] as int == code; }
    else if code == OptVerbose { assert ShortOptions[1] as int == code; }
    else if code == OptDebug { assert ShortOptions[2] as int == code; }
    else if code == OptHelp { assert ShortOptions[3] as int == code; }
    else if code == OptMachOViewDoom { assert ShortOptions[4] as int == code; }
    else if code == OptManglerKey { assert ShortOptions[5] as int == code; }
  }

  /** As written, no option reaches the `--swift-reflection` case: the table has no entry for
      it and no short option carries its code. */
  lemma SwiftReflectionUnreachable()
    ensures !Produces(LongOptionsAsWritten, OptSwiftReflection)
    ensures forall i :: 0 <= i < |LongOptionsAsWritten| ==> LongOptionsAsWritten[i].name != "swift-reflection"
    ensures LongCode(LongOptionsAsWritten, "swift-reflection") == OptUnknownOption
    ensures forall i :: 0 <= i < |LongOptionsAsWritten| ==> !BeginsWith(LongOptionsAsWritten[i].name, "swift-reflection")
  {
    ShortCodesAre(OptSwiftReflection);
    NoRowBeginsWith("swift-reflection");
    assert forall i :: 0 <= i < |LongOptionsAsWritten| ==> LongOptionsAsWritten[i].code != OptSwiftReflection;
    assert forall i :: 0 <= i < |LongOptionsAsWritten| ==> LongOptionsAsWritten[i].name != "swift-reflection";
  }

  /** As written, `--swift-reflection` cannot switch Swift reflection obfuscation on: whatever
      the command line, the parsed options have it off. */
  lemma SwiftReflectionNeverOn(events: seq<OptEvent>, operands: seq<string>, env: OptionsEnv)
    requires FromTable(events, LongOptionsAsWritten)
    requires Parse(events, operands, env).Ok?
    ensures !Parse(events, operands, env).value.swiftReflectionObfuscation
  {
    SwitchesFollowOptions(events, operands, env);
    SwiftReflectionUnreachable();
    if Has(events, OptSwiftReflection) {
      HasSome(events, OptSwiftReflection);
    }
  }

  /** As written, the long forms `--quiet` and `--debug` that the usage text documents are
      unknown options; only `-q` and `-d` reach their cases. */
  lemma LongQuietAndDebugUnknown()
    ensures forall i :: 0 <= i < |LongOptionsAsWritten| ==> LongOptionsAsWritten[i].name != "quiet"
    ensures forall i :: 0 <= i < |LongOptionsAsWritten| ==> LongOptionsAsWritten[i].name != "debug"
    ensures LongCode(LongOptionsAsWritten, "quiet") == OptUnknownOption
    ensures LongCode(LongOptionsAsWritten, "debug") == OptUnknownOption
    ensures forall i :: 0 <= i < |LongOptionsAsWritten| ==> !BeginsWith(LongOptionsAsWritten[i].name, "quiet")
    ensures forall i :: 0 <= i < |LongOptionsAsWritten| ==> !BeginsWith(LongOptionsAsWritten[i].name, "debug")
  {
    NoRowBeginsWith("quiet");
    NoRowBeginsWith("debug");
    assert forall i :: 0 <= i < |LongOptionsAsWritten| ==> LongOptionsAsWritten[i].name != "quiet";
    assert forall i :: 0 <= i < |LongOptionsAsWritten| ==> LongOptionsAsWritten[i].name != "debug";
  }

  /** No name of the written table begins with `prefix`, for the three names the usage text
      documents and the table lacks: each differs from every name in its first two letters. */
  lemma NoRowBeginsWith(prefix: string)
    requires prefix in {"quiet", "debug", "swift-reflection"}
    ensures forall i :: 0 <= i < |LongOptionsAsWritten| ==> !BeginsWith(LongOptionsAsWritten[i].name, prefix)
  {
    var t := LongOptionsAsWritten;
    forall i | 0 <= i < |t| ensures !BeginsWith(t[i].name, prefix) {
      var name := t[i].name;
      assert |name| >= 4 && (name[0] != prefix[0] || name[1] != prefix[1]);
      if |prefix| <= |name| {
        assert name[..|prefix|][0] == name[0] && name[..|prefix|][1] == name[1];
      }
    }
  }

  /** With the table as written every case of the option loop but `--swift-reflection` is
      reachable. */
  lemma WrittenTableReachesOtherCases(code: int)
    requires Handled(code) && code != OptSwiftReflection
    ensures Produces(LongOptionsAsWritten, code)
  {
    WrittenCodes();
    ShortCodesAre(code);
  }

  /** With the corrected table every case of the option loop is reachable. */
  lemma CorrectedTableReachesEveryCase(code: int)
    requires Handled(code)
    ensures Produces(LongOptionsCorrected, code)
  {
    if code == OptSwiftReflection {
      assert |LongOptionsAsWritten| == 24;
      assert LongOptionsCorrected[26] == LongOption("swift-reflection", false, OptSwiftReflection);
    } else {
      WrittenTableReachesOtherCases(code);
      if exists i :: 0 <= i < |LongOptionsAsWritten| && LongOptionsAsWritten[i].code == code {
        var i :| 0 <= i < |LongOptionsAsWritten| && LongOptionsAsWritten[i].code == code;
        assert LongOptionsCorrected[i] == LongOptionsAsWritten[i];
      }
    }
  }

  /** Entries appended after a table that lacks `name` decide its code alone. */
  lemma {:induction false} LongCodeAppended(table: seq<LongOption>, more: seq<LongOption>, name: string)
    requires forall i :: 0 <= i < |table| ==> table[i].name != name
    ensures LongCode(table + more, name) == LongCode(more, name)
    decreases |table|
  {
    if table != [] {
      assert (table + more)[0] == table[0] && table[0].name != name;
      assert (table + more)[1..] == table[1..] + more;
      assert forall i :: 0 <= i < |table[1..]| ==> table[1..][i] == table[i + 1];
      LongCodeAppended(table[1..], more, name);
    } else {
      assert table + more == more;
    }
  }

  /** The appended entries, looked up by name. */
  lemma UndeclaredCodes()
    ensures LongCode(Undeclared, "quiet") == OptQuiet
    ensures LongCode(Undeclared, "debug") == OptDebug
    ensures LongCode(Undeclared, "swift-reflection") == OptSwiftReflection
  {
    assert Undeclared[1..] == [LongOption("debug", false, OptDebug), LongOption("swift-reflection", false, OptSwiftReflection)];
    var last := Undeclared[1..][1..];
    assert last == [LongOption("swift-reflection", false, OptSwiftReflection)];
    assert LongCode(last, "swift-reflection") == OptSwiftReflection;
    assert LongCode(Undeclared[1..], "swift-reflection") == LongCode(last, "swift-reflection");
  }

  /** With the corrected table `--quiet` and `--debug` reach their own cases. */
  lemma CorrectedQuietAndDebug()
    ensures LongCode(LongOptionsCorrected, "quiet") == OptQuiet
    ensures LongCode(LongOptionsCorrected, "debug") == OptDebug
  {
    LongQuietAndDebugUnknown();
    UndeclaredCodes();
    LongCodeAppended(LongOptionsAsWritten, Undeclared, "quiet");
    LongCodeAppended(LongOptionsAsWritten, Undeclared, "debug");
  }

  /** With the corrected table `--swift-reflection` reaches its own case. */
  lemma CorrectedSwiftReflection()
    ensures LongCode(LongOptionsCorrected, "swift-reflection") == OptSwiftReflection
  {
    SwiftReflectionUnreachable();
    UndeclaredCodes();
    LongCodeAppended(LongOptionsAsWritten, Undeclared, "swift-reflection");
  }

  /** With the corrected table `--swift-reflection` switches Swift reflection obfuscation on. */
  lemma SwiftReflectionSwitchesOn(operands: seq<string>, env: OptionsEnv)
    ensures var events := [OptEvent(LongCode(LongOptionsCorrected, "swift-reflection"), "")];
      && FromTable(events, LongOptionsCorrected)
      && Parse(events, operands, env).Ok?
      && Parse(events, operands, env).value.swiftReflectionObfuscation
  {
    CorrectedSwiftReflection();
    CorrectedTableReachesEveryCase(OptSwiftReflection);
    var events := [OptEvent(OptSwiftReflection, "")];
    SwitchesAlwaysParse(events, operands, env);
    SwitchesFollowOptions(events, operands, env);
    assert Has(events, OptSwiftReflection);
  }
}
