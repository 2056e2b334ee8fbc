/**
 * `run_command` and `main` (mirrulations_downloader.py): from the option
 * values and the environment, either the one `rclone copy` command line the
 * program offers to run, or the reason it exits without offering anything.
 *
 * The environment variables and the file-system checks on them are inputs
 * (`Environment`); printing, the confirmation prompt and running the command
 * are not part of this model.
 */
module Downloader {
  import opened Wrappers
  import opened Text
  import opened Years
  import opened Patterns
  import opened Options

  /**
   * Why the program stops without offering a command. `NoIncludePatterns` is
   * the stop the corrected `run_command` adds (`DecideGuarded`); the program
   * as written has no such exit.
   */
  datatype ExitReason =
    | NonNumericTransfers
    | NoLimitation
    | MissingPaths(destMissing: bool, configMissing: bool)
    | GetAllWithFilter
    | NoIncludePatterns

  /** What one invocation ends in: an exit, the command offered, or a `ValueError` raised on a year item. */
  datatype Outcome = Exit(reason: ExitReason) | Run(command: string) | Raised(item: string)

  /**
   * `MIRRULATIONS_DESTINATION_PATH`, `RCLONE_CONFIG_FILE`, and whether the
   * first exists and the second is a regular file.
   */
  datatype Environment = Environment(destDir: string, configFile: string, destExists: bool, configIsFile: bool)

  const DefaultTransfers: string := "50"

  /** The file types of a text-only download: plain text, JSON and HTML. */
  const TextFileTypes: seq<string> := ["*.txt", "*.json", "*.htm"]

  /** The value given to `--transfers`: the default when the option is empty, `None` when it is not a number. */
  function TransfersToUse(transfers: string): (r: Option<string>)
    ensures r.None? <==> transfers != "" && !IsNumeric(transfers)
    ensures r.Some? ==> IsNumeric(r.value) && (transfers == "" || r.value == transfers)
  {
    assert IsDigit(DefaultTransfers[0]) && IsDigit(DefaultTransfers[1]);
    if transfers == "" then Some(DefaultTransfers)
    else if IsNumeric(transfers) then Some(transfers)
    else None
  }

  /** Twice as many checkers as transfers. */
  function Checkers(transfers: string): nat
    requires IsNumeric(transfers)
  {
    2 * DigitsValue(transfers)
  }

  /** The flags every command carries. */
  function AlwaysFlags(transfers: string): string
    requires IsNumeric(transfers)
  {
    "  --checkers " + NatToString(Checkers(transfers)) + " --transfers " + transfers + " --log-file 'rclone.log' -P "
  }

  /** The command without any `--include` clause: it copies the whole mirror. */
  function BaseCommand(env: Environment, transfers: string): string
    requires IsNumeric(transfers)
  {
    "rclone copy myconfig: " + env.destDir + " --config " + env.configFile + " " + AlwaysFlags(transfers)
  }

  /** The clause one pattern adds to the command. */
  function IncludeClause(pattern: string): (r: string)
    ensures |r| == |pattern| + 14 && r[12..12 + |pattern|] == pattern
  {
    " --include \"" + pattern + "\" "
  }

  /** `command` extended by the clause of each pattern in turn, as the `+=` loop does it. */
  function WithIncludes(command: string, patterns: seq<string>): string
  {
    if |patterns| == 0 then command
    else WithIncludes(command, patterns[..|patterns| - 1]) + IncludeClause(patterns[|patterns| - 1])
  }

  /** The clauses of all the patterns, read front to back. */
  function Clauses(patterns: seq<string>): string
  {
    if |patterns| == 0 then [] else IncludeClause(patterns[0]) + Clauses(patterns[1..])
  }

  /** Whether some option narrows the download (an agency, a year, a docket, or text only). */
  predicate Limited(agencies: seq<string>, years: seq<int>, dockets: seq<string>, textOnly: bool)
  {
    |agencies| > 0 || |years| > 0 || |dockets| > 0 || textOnly
  }

  /** The agency list the pattern generator receives: the wildcard alone when none is given. */
  function AgencyFilters(agencies: seq<string>): (r: seq<string>)
    ensures |r| > 0
  {
    if |agencies| > 0 then agencies else [AnyAgency]
  }

  /** The year list the pattern generator receives: the wildcard alone when none is given. */
  function YearFilters(years: seq<int>): (r: seq<YearFilter>)
    ensures |r| > 0
    ensures |years| > 0 ==> |r| == |years| && forall k :: 0 <= k < |years| ==> r[k] == InYear(years[k])
  {
    if |years| > 0 then seq(|years|, k requires 0 <= k < |years| => InYear(years[k])) else [AnyYear]
  }

  function FileTypes(textOnly: bool): (r: seq<string>)
    ensures |r| > 0
  {
    if textOnly then TextFileTypes else ["*"]
  }

  /** The patterns of a filtered download. */
  function Filters(agencies: seq<string>, years: seq<int>, dockets: seq<string>, textOnly: bool): seq<string>
  {
    IncludePatterns(AgencyFilters(agencies), YearFilters(years), dockets, FileTypes(textOnly))
  }

  /**
   * What `run_command` as written ends in, checks in the order the program makes them:
   * the transfers value, then that there is a limitation or `--getall`, then
   * the two paths, then that `--getall` comes alone.
   */
  function Decide(agencies: seq<string>, years: seq<int>, dockets: seq<string>, textOnly: bool, getAll: bool,
                  transfers: string, env: Environment): (r: Outcome)
    ensures r.Run? <==> (transfers == "" || IsNumeric(transfers)) && env.destExists && env.configIsFile
                        && getAll != Limited(agencies, years, dockets, textOnly)
    ensures !r.Raised? && r != Exit(NoIncludePatterns)
  {
    match TransfersToUse(transfers)
    case None => Exit(NonNumericTransfers)
    case Some(t) =>
      var limited := Limited(agencies, years, dockets, textOnly);
      if !getAll && !limited then Exit(NoLimitation)
      else if !env.destExists || !env.configIsFile then Exit(MissingPaths(!env.destExists, !env.configIsFile))
      else if getAll && limited then Exit(GetAllWithFilter)
      else if getAll then Run(BaseCommand(env, t))
      else Run(WithIncludes(BaseCommand(env, t), Filters(agencies, years, dockets, textOnly)))
  }

  /**
   * `run_command`: the flags, the early exits and the loop that appends one
   * clause per pattern, with the stop for a filtered request that yields no
   * pattern (see `DecideGuarded`).
   */
  method RunCommand(agencies: seq<string>, years: seq<int>, dockets: seq<string>, textOnly: bool, getAll: bool,
                    transfers: string, env: Environment) returns (o: Outcome)
    ensures o == DecideGuarded(agencies, years, dockets, textOnly, getAll, transfers, env)
  {
    var transfersToUse := DefaultTransfers;
    if transfers != "" {
      if IsNumeric(transfers) {
        transfersToUse := transfers;
      } else {
        return Exit(NonNumericTransfers);
      }
    }
    var alwaysFlags := FlagsFor(transfersToUse);
    var agencyList, yearList, fileTypes, isLimited, isEnough := Limitations(agencies, years, dockets, textOnly, getAll);
    if !isEnough {
      return Exit(NoLimitation);
    }
    var hasError := false;
    if !env.destExists {
      hasError := true;
    }
    if !env.configIsFile {
      hasError := true;
    }
    if hasError {
      return Exit(MissingPaths(!env.destExists, !env.configIsFile));
    }

    var baseCommand := "rclone copy myconfig: " + env.destDir + " --config " + env.configFile + " " + alwaysFlags;
    if getAll {
      if isLimited {
        return Exit(GetAllWithFilter);
      }
      return Run(baseCommand);
    }
    var patterns := GenerateIncludePatterns(agencyList, yearList, dockets, fileTypes);
    if |patterns| == 0 {
      return Exit(NoIncludePatterns);
    }
    var command := AppendIncludes(baseCommand, patterns);
    return Run(command);
  }

  /** The flags of `run_command` for a numeric transfers value: `int` of it, doubled, for the checkers. */
  method FlagsFor(transfersToUse: string) returns (alwaysFlags: string)
    requires IsNumeric(transfersToUse)
    ensures alwaysFlags == AlwaysFlags(transfersToUse)
  {
    ParseIntOfDigits(transfersToUse);
    var checkersToUse := ParseInt(transfersToUse).value * 2;
    alwaysFlags := "  --checkers " + NatToString(checkersToUse) + " --transfers " + transfersToUse
                   + " --log-file 'rclone.log' -P ";
  }

  /**
   * The part of `run_command` that records whether a limitation was given and
   * replaces a missing agency or year list by the wildcard.
   */
  method Limitations(agencies: seq<string>, years: seq<int>, dockets: seq<string>, textOnly: bool, getAll: bool)
    returns (agencyList: seq<string>, yearList: seq<YearFilter>, fileTypes: seq<string>, isLimited: bool, isEnough: bool)
    ensures agencyList == AgencyFilters(agencies) && yearList == YearFilters(years) && fileTypes == FileTypes(textOnly)
    ensures isLimited == Limited(agencies, years, dockets, textOnly) && isEnough == (getAll || isLimited)
  {
    isLimited := false;
    isEnough := getAll;
    agencyList := agencies;
    if |agencies| > 0 {
      isEnough, isLimited := true, true;
    } else {
      agencyList := [AnyAgency];
    }
    if |years| > 0 {
      isEnough, isLimited := true, true;
      yearList := seq(|years|, k requires 0 <= k < |years| => InYear(years[k]));
    } else {
      yearList := [AnyYear];
    }
    if |dockets| > 0 {
      isEnough, isLimited := true, true;
    }
    if !textOnly {
      fileTypes := ["*"];
    } else {
      fileTypes := TextFileTypes;
      isEnough, isLimited := true, true;
    }
  }

  /** The loop of `run_command` that appends one `--include` clause per pattern. */
  method AppendIncludes(baseCommand: string, patterns: seq<string>) returns (command: string)
    ensures command == WithIncludes(baseCommand, patterns)
  {
    command := baseCommand;
    for i := 0 to |patterns|
      invariant command == WithIncludes(baseCommand, patterns[..i])
    {
      assert patterns[..i + 1][..i] == patterns[..i];
      command := command + IncludeClause(patterns[i]);
    }
    assert patterns[..|patterns|] == patterns;
  }

  /**
   * What `main` ends in for the raw option values, with `run_command`
   * corrected as `DecideGuarded` (the program as written offers the bare
   * base command where this stops with `NoIncludePatterns`).
   */
  function Invocation(agency: string, year: string, docket: string, textOnly: bool, getAll: bool,
                      transfers: string, env: Environment): Outcome
  {
    match YearOption(year)
    case Err(item) => Raised(item)
    case Ok(years) => DecideGuarded(CommaList(agency), years, CommaList(docket), textOnly, getAll, transfers, env)
  }

  /** `main`: the comma lists, the year list (empty when `--year` is), then the corrected `run_command` of `RunCommand`. */
  method RunOptions(agency: string, year: string, docket: string, textOnly: bool, getAll: bool,
                    transfers: string, env: Environment) returns (o: Outcome)
    ensures o == Invocation(agency, year, docket, textOnly, getAll, transfers, env)
  {
    var agencyList := CommaList(agency);
    var docketList := CommaList(docket);
    var yearList: seq<int> := [];
    if year != "" {
      var parsed := ParseYears(year);
      if parsed.Err? {
        return Raised(parsed.error);
      }
      yearList := parsed.value;
    }
    o := RunCommand(agencyList, yearList, docketList, textOnly, getAll, transfers, env);
  }

  // ---------------------------------------------------------------------------
  // Properties of run_command
  // ---------------------------------------------------------------------------

  /**
   * Every way `run_command` can end, with the exact condition for each: the
   * checks come in a fixed order, so an earlier failure hides the later ones,
   * and a command is offered only when all of them pass.
   */
  lemma OutcomeClassification(agencies: seq<string>, years: seq<int>, dockets: seq<string>, textOnly: bool, getAll: bool,
                              transfers: string, env: Environment)
    ensures var o := Decide(agencies, years, dockets, textOnly, getAll, transfers, env);
      var numeric := transfers == "" || IsNumeric(transfers);
      var limited := Limited(agencies, years, dockets, textOnly);
      var pathsOk := env.destExists && env.configIsFile;
      && (o == Exit(NonNumericTransfers) <==> !numeric)
      && (o == Exit(NoLimitation) <==> numeric && !getAll && !limited)
      && (o.Exit? && o.reason.MissingPaths? <==> numeric && (getAll || limited) && !pathsOk)
      && (o == Exit(GetAllWithFilter) <==> numeric && getAll && limited && pathsOk)
      && (o.Run? <==> numeric && pathsOk && getAll != limited)
      && !o.Raised? && o != Exit(NoIncludePatterns)
  {
  }

  /** The clauses of `ps + [p]` are those of `ps`, then the clause of `p`. */
  lemma {:induction false} ClausesSnoc(patterns: seq<string>, p: string)
    ensures Clauses(patterns + [p]) == Clauses(patterns) + IncludeClause(p)
  {
    if |patterns| > 0 {
      assert (patterns + [p])[1..] == patterns[1..] + [p];
      ClausesSnoc(patterns[1..], p);
    }
  }

  /** Appending the clauses one at a time appends all of them, in pattern order. */
  lemma {:induction false} WithIncludesIsConcat(command: string, patterns: seq<string>)
    ensures WithIncludes(command, patterns) == command + Clauses(patterns)
  {
    if |patterns| > 0 {
      var init, last := patterns[..|patterns| - 1], patterns[|patterns| - 1];
      WithIncludesIsConcat(command, init);
      ClausesSnoc(init, last);
      assert init + [last] == patterns;
    }
  }

  /** Each pattern adds its clause: 14 characters around the pattern itself. */
  lemma {:induction false} ClausesLength(patterns: seq<string>)
    ensures |Clauses(patterns)| >= 14 * |patterns|
  {
    if |patterns| > 0 {
      ClausesLength(patterns[1..]);
    }
  }

  /** A filtered command is the base command followed by one `--include` clause per generated pattern. */
  lemma FilteredCommand(agencies: seq<string>, years: seq<int>, dockets: seq<string>, textOnly: bool,
                        transfers: string, env: Environment)
    requires Decide(agencies, years, dockets, textOnly, false, transfers, env).Run?
    ensures TransfersToUse(transfers).Some?
    ensures Decide(agencies, years, dockets, textOnly, false, transfers, env).command
         == BaseCommand(env, TransfersToUse(transfers).value) + Clauses(Filters(agencies, years, dockets, textOnly))
  {
    WithIncludesIsConcat(BaseCommand(env, TransfersToUse(transfers).value), Filters(agencies, years, dockets, textOnly));
  }

  /**
   * Without dockets there is one derived-data and one raw-data pattern per
   * agency, year and file type, with the wildcard standing in for a missing
   * agency or year list; so there is always at least one.
   */
  lemma FiltersWithoutDockets(agencies: seq<string>, years: seq<int>, textOnly: bool)
    ensures |Filters(agencies, years, [], textOnly)|
         == 2 * |AgencyFilters(agencies)| * |YearFilters(years)| * |FileTypes(textOnly)|
    ensures |Filters(agencies, years, [], textOnly)| > 0
  {
    var a, y, f := |AgencyFilters(agencies)|, |YearFilters(years)|, |FileTypes(textOnly)|;
    PatternCount(AgencyFilters(agencies), YearFilters(years), [], FileTypes(textOnly));
    assert a * y > 0;
    assert a * y * f > 0;
  }

  /** The checkers count in the flags is, read back with `int`, twice the transfers count. */
  lemma CheckersTwiceTransfers(transfers: string)
    requires IsNumeric(transfers)
    ensures ParseInt(NatToString(Checkers(transfers))) == Some(2 * ParseInt(transfers).value)
  {
    ParseIntOfDigits(transfers);
    ParseIntOfIntToString(Checkers(transfers));
  }

  /** With `--transfers` left empty: 50 transfers and 100 checkers. */
  lemma DefaultFlags()
    ensures TransfersToUse("") == Some(DefaultTransfers)
    ensures AlwaysFlags(DefaultTransfers) == "  --checkers " + "100" + " --transfers " + "50" + " --log-file 'rclone.log' -P "
  {
    assert DigitsValue("50") == 50 by {
      assert "50"[..1] == "5";
      assert "5"[..0] == "";
    }
    assert Checkers(DefaultTransfers) == 100;
    assert NatToString(100) == "100" by {
      assert DigitChar(0) == '0' && DigitChar(1) == '1';
      assert NatToString(1) == "1";
      assert NatToString(10) == NatToString(1) + "0" == "10";
      assert NatToString(100) == NatToString(10) + "0";
    }
  }

  // ---------------------------------------------------------------------------
  // Dockets that produce no pattern
  // ---------------------------------------------------------------------------

  /**
   * As written: when every docket is dropped for having fewer than three
   * hyphen-separated parts, the filtered command has no `--include` clause
   * and is the very command `--getall` runs, so a docket request downloads
   * the whole mirror.
   */
  lemma UnqualifiedDocketsDownloadEverything(agencies: seq<string>, years: seq<int>, dockets: seq<string>, textOnly: bool,
                                             transfers: string, env: Environment)
    requires |dockets| > 0 && forall i :: 0 <= i < |dockets| ==> !Qualified(dockets[i])
    requires TransfersToUse(transfers).Some? && env.destExists && env.configIsFile
    ensures Decide(agencies, years, dockets, textOnly, false, transfers, env) == Decide([], [], [], false, true, transfers, env)
    ensures Decide(agencies, years, dockets, textOnly, false, transfers, env).Run?
  {
    UnqualifiedDocketsYieldNothing(dockets, FileTypes(textOnly));
  }

  /** `run_command` with the guard the `--getall` check evidently intends: a filtered download with no pattern stops. */
  function DecideGuarded(agencies: seq<string>, years: seq<int>, dockets: seq<string>, textOnly: bool, getAll: bool,
                         transfers: string, env: Environment): Outcome
  {
    var o := Decide(agencies, years, dockets, textOnly, getAll, transfers, env);
    if o.Run? && !getAll && Filters(agencies, years, dockets, textOnly) == [] then Exit(NoIncludePatterns) else o
  }

  /**
   * Corrected: a command is offered without any `--include` clause only
   * under `--getall`; every other command carries at least one.
   */
  lemma GuardedNeverUnfiltered(agencies: seq<string>, years: seq<int>, dockets: seq<string>, textOnly: bool, getAll: bool,
                               transfers: string, env: Environment)
    requires DecideGuarded(agencies, years, dockets, textOnly, getAll, transfers, env).Run?
    ensures TransfersToUse(transfers).Some?
    ensures var c := DecideGuarded(agencies, years, dockets, textOnly, getAll, transfers, env).command;
      var base := BaseCommand(env, TransfersToUse(transfers).value);
      (c == base <==> getAll) && (!getAll ==> |c| > |base|)
  {
    var base := BaseCommand(env, TransfersToUse(transfers).value);
    if !getAll {
      var filters := Filters(agencies, years, dockets, textOnly);
      FilteredCommand(agencies, years, dockets, textOnly, transfers, env);
      ClausesLength(filters);
    }
  }

  /** The guard changes nothing where a pattern exists or `--getall` is given. */
  lemma GuardedAgrees(agencies: seq<string>, years: seq<int>, dockets: seq<string>, textOnly: bool, getAll: bool,
                      transfers: string, env: Environment)
    requires getAll || Filters(agencies, years, dockets, textOnly) != []
    ensures DecideGuarded(agencies, years, dockets, textOnly, getAll, transfers, env)
         == Decide(agencies, years, dockets, textOnly, getAll, transfers, env)
  {
  }

  /** With the guard, a request for malformed dockets only stops. */
  lemma GuardedStopsUnqualifiedDockets(agencies: seq<string>, years: seq<int>, dockets: seq<string>, textOnly: bool,
                                       transfers: string, env: Environment)
    requires |dockets| > 0 && forall i :: 0 <= i < |dockets| ==> !Qualified(dockets[i])
    requires TransfersToUse(transfers).Some? && env.destExists && env.configIsFile
    ensures DecideGuarded(agencies, years, dockets, textOnly, false, transfers, env) == Exit(NoIncludePatterns)
  {
    UnqualifiedDocketsYieldNothing(dockets, FileTypes(textOnly));
  }

  // ---------------------------------------------------------------------------
  // Properties of main
  // ---------------------------------------------------------------------------

  /** A malformed year item stops `main` before any other check. */
  lemma YearErrorFirst(agency: string, year: string, docket: string, textOnly: bool, getAll: bool,
                       transfers: string, env: Environment)
    requires YearOption(year).Err?
    ensures Invocation(agency, year, docket, textOnly, getAll, transfers, env) == Raised(YearOption(year).error)
  {
  }

  /** No option at all: nothing limits the download and `--getall` is absent, so the program stops. */
  lemma NoOptionsStops(env: Environment)
    ensures Invocation("", "", "", false, false, "", env) == Exit(NoLimitation)
  {
    CommaListBlank("");
    NothingGivenStops(CommaList(""), [], CommaList(""), false, "", env);
  }

  /** Without a limitation and without `--getall`, `run_command` stops for any valid transfers value. */
  lemma NothingGivenStops(agencies: seq<string>, years: seq<int>, dockets: seq<string>, textOnly: bool,
                          transfers: string, env: Environment)
    requires !Limited(agencies, years, dockets, textOnly) && TransfersToUse(transfers).Some?
    ensures DecideGuarded(agencies, years, dockets, textOnly, false, transfers, env) == Exit(NoLimitation)
  {
  }
}
