/**
 * `generate_include_patterns` (mirrulations_downloader.py): the `--include`
 * globs handed to the sync tool. The mirror holds two parallel trees,
 * `/derived-data/` and `/raw-data/`; every pattern is one of them, a scope
 * (the directories that select agency, year or docket), then `**` as a
 * directory segment, then a file type.
 *
 * With dockets the patterns come from the dockets alone; otherwise they come
 * from every agency, year and file type, nested in that order.
 */
module Patterns {
  import opened Text

  /** An entry of the year list: the wildcard `'*'` or one year. */
  datatype YearFilter = AnyYear | InYear(year: int)

  /** The wildcard that stands for every agency. */
  const AnyAgency: string := "*"

  /** The pattern in the derived-data tree for a scope and a file type. */
  function Derived(scope: string, fileType: string): string
  {
    "/derived-data/" + scope + "**/" + fileType
  }

  /** The pattern in the raw-data tree for a scope and a file type. */
  function Raw(scope: string, fileType: string): string
  {
    "/raw-data/" + scope + "**/" + fileType
  }

  lemma AppendAssoc(a: seq<string>, b: seq<string>, c: seq<string>)
    ensures a + b + c == a + (b + c)
  {
  }

  lemma MiddleIndex(a: seq<string>, b: seq<string>, c: seq<string>, m: nat)
    requires m < |b|
    ensures |a| + m < |a + b + c| && (a + b + c)[|a| + m] == b[m]
  {
  }

  // The two patterns of each scope as the f-strings of the source spell them out.

  lemma EverythingShape(fileType: string)
    ensures "/derived-data/**/" + fileType == Derived("", fileType)
    ensures "/raw-data/**/" + fileType == Raw("", fileType)
  {
  }

  lemma AgencyShape(agency: string, fileType: string)
    ensures "/derived-data/" + agency + "/**/" + fileType == Derived(agency + "/", fileType)
    ensures "/raw-data/" + agency + "/**/" + fileType == Raw(agency + "/", fileType)
  {
  }

  lemma AnyAgencyYearShape(y: string, fileType: string)
    ensures "/derived-data/*/*-" + y + "-*/**/" + fileType == Derived("*/*-" + y + "-*/", fileType)
    ensures "/raw-data/*/*-" + y + "-*/**/" + fileType == Raw("*/*-" + y + "-*/", fileType)
  {
  }

  lemma AgencyYearShape(agency: string, y: string, fileType: string)
    ensures "/derived-data/" + agency + "/*-" + y + "-*/**/" + fileType == Derived(agency + "/*-" + y + "-*/", fileType)
    ensures "/raw-data/" + agency + "/*-" + y + "-*/**/" + fileType == Raw(agency + "/*-" + y + "-*/", fileType)
  {
  }

  lemma DocketShape(agency: string, docket: string, fileType: string)
    ensures "/derived-data/" + agency + "/" + docket + "/**/" + fileType == Derived(agency + "/" + docket + "/", fileType)
    ensures "/raw-data/" + agency + "/" + docket + "/**/" + fileType == Raw(agency + "/" + docket + "/", fileType)
  {
  }

  /**
   * The scope for one agency and one year entry, by whether each is the
   * wildcard: nothing; the agency's directory; any agency's dockets whose
   * identifier holds `-<year>-`; or the agency's dockets holding `-<year>-`.
   */
  function Scope(agency: string, year: YearFilter): string
  {
    match year
    case AnyYear =>
      if agency == AnyAgency then "" else agency + "/"
    case InYear(y) =>
      if agency == AnyAgency then "*/*-" + IntToString(y) + "-*/"
      else agency + "/*-" + IntToString(y) + "-*/"
  }

  /** For each file type in order, the derived-data pattern and then the raw-data one. */
  function FileTypePatterns(scope: string, fileTypes: seq<string>): (r: seq<string>)
    ensures |r| == 2 * |fileTypes|
    ensures forall k :: 0 <= k < |fileTypes| ==>
      r[2 * k] == Derived(scope, fileTypes[k]) && r[2 * k + 1] == Raw(scope, fileTypes[k])
  {
    if |fileTypes| == 0 then []
    else
      var last := fileTypes[|fileTypes| - 1];
      FileTypePatterns(scope, fileTypes[..|fileTypes| - 1]) + [Derived(scope, last), Raw(scope, last)]
  }

  /** One more file type adds its derived-data and raw-data patterns at the end. */
  lemma FileTypeStep(scope: string, fileTypes: seq<string>, k: nat)
    requires k < |fileTypes|
    ensures FileTypePatterns(scope, fileTypes[..k + 1])
         == FileTypePatterns(scope, fileTypes[..k]) + [Derived(scope, fileTypes[k]), Raw(scope, fileTypes[k])]
  {
    assert fileTypes[..k + 1][..k] == fileTypes[..k];
  }

  // ---------------------------------------------------------------------------
  // Docket mode
  // ---------------------------------------------------------------------------

  /** A docket identifier is used only when it has at least three hyphen-separated parts. */
  predicate Qualified(docket: string)
  {
    |Split(docket, '-')| >= 3
  }

  /** The dockets that produce patterns, in input order. */
  function QualifiedDockets(dockets: seq<string>): (r: seq<string>)
    ensures |r| <= |dockets|
    ensures forall i :: 0 <= i < |r| ==> Qualified(r[i]) && r[i] in dockets
  {
    if |dockets| == 0 then []
    else
      var init, last := dockets[..|dockets| - 1], dockets[|dockets| - 1];
      assert forall d :: d in init ==> d in dockets;
      QualifiedDockets(init) + (if Qualified(last) then [last] else [])
  }

  /** The scope of a docket: its agency (the part before the first hyphen), then the docket itself. */
  function DocketScope(docket: string): string
  {
    Split(docket, '-')[0] + "/" + docket + "/"
  }

  /** The patterns of one docket: none for an identifier that is not qualified. */
  function DocketPatterns(docket: string, fileTypes: seq<string>): seq<string>
  {
    if Qualified(docket) then FileTypePatterns(DocketScope(docket), fileTypes) else []
  }

  /** The patterns of every docket, in docket order. */
  function AllDocketPatterns(dockets: seq<string>, fileTypes: seq<string>): seq<string>
  {
    if |dockets| == 0 then []
    else
      AllDocketPatterns(dockets[..|dockets| - 1], fileTypes) + DocketPatterns(dockets[|dockets| - 1], fileTypes)
  }

  // ---------------------------------------------------------------------------
  // Agency / year mode
  // ---------------------------------------------------------------------------

  /** For one agency: every year in order, each with all its file types. */
  function YearPatterns(agency: string, years: seq<YearFilter>, fileTypes: seq<string>): seq<string>
  {
    if |years| == 0 then []
    else
      var n := |years| - 1;
      YearPatterns(agency, years[..n], fileTypes) + FileTypePatterns(Scope(agency, years[n]), fileTypes)
  }

  /** Every agency in order, each with all its years and file types. */
  function CrossPatterns(agencies: seq<string>, years: seq<YearFilter>, fileTypes: seq<string>): seq<string>
  {
    if |agencies| == 0 then []
    else
      var n := |agencies| - 1;
      CrossPatterns(agencies[..n], years, fileTypes) + YearPatterns(agencies[n], years, fileTypes)
  }

  /** What `generate_include_patterns` returns. */
  function IncludePatterns(agencies: seq<string>, years: seq<YearFilter>, dockets: seq<string>,
                           fileTypes: seq<string>): seq<string>
  {
    if |dockets| > 0 then AllDocketPatterns(dockets, fileTypes)
    else CrossPatterns(agencies, years, fileTypes)
  }

  /**
   * The body of the innermost loop of `generate_include_patterns`: the
   * derived-data and raw-data patterns for one agency, year and file type,
   * chosen by whether the agency and the year are wildcards.
   */
  method PatternPair(agency: string, year: YearFilter, fileType: string) returns (derived: string, raw: string)
    ensures derived == Derived(Scope(agency, year), fileType)
    ensures raw == Raw(Scope(agency, year), fileType)
  {
    if year == AnyYear {
      if agency == AnyAgency {
        derived := "/derived-data/**/" + fileType;
        raw := "/raw-data/**/" + fileType;
        EverythingShape(fileType);
      } else {
        derived := "/derived-data/" + agency + "/**/" + fileType;
        raw := "/raw-data/" + agency + "/**/" + fileType;
        AgencyShape(agency, fileType);
      }
    } else {
      var y := IntToString(year.year);
      if agency == AnyAgency {
        derived := "/derived-data/*/*-" + y + "-*/**/" + fileType;
        raw := "/raw-data/*/*-" + y + "-*/**/" + fileType;
        AnyAgencyYearShape(y, fileType);
      } else {
        derived := "/derived-data/" + agency + "/*-" + y + "-*/**/" + fileType;
        raw := "/raw-data/" + agency + "/*-" + y + "-*/**/" + fileType;
        AgencyYearShape(agency, y, fileType);
      }
    }
  }

  /** The docket branch of `generate_include_patterns`: each qualified docket, each file type. */
  method DocketModePatterns(dockets: seq<string>, fileTypes: seq<string>) returns (patterns: seq<string>)
    ensures patterns == AllDocketPatterns(dockets, fileTypes)
  {
    patterns := [];
    for d := 0 to |dockets|
      invariant patterns == AllDocketPatterns(dockets[..d], fileTypes)
    {
      var docket := dockets[d];
      assert dockets[..d + 1][..d] == dockets[..d];
      var parts := Split(docket, '-');
      if |parts| >= 3 {
        var agency := parts[0];
        ghost var before := patterns;
        for k := 0 to |fileTypes|
          invariant patterns == before + FileTypePatterns(DocketScope(docket), fileTypes[..k])
        {
          var fileType := fileTypes[k];
          ghost var done := patterns;
          patterns := patterns + ["/derived-data/" + agency + "/" + docket + "/**/" + fileType];
          patterns := patterns + ["/raw-data/" + agency + "/" + docket + "/**/" + fileType];
          FileTypeStep(DocketScope(docket), fileTypes, k);
          DocketShape(agency, docket, fileType);
          ghost var pair := [Derived(DocketScope(docket), fileType), Raw(DocketScope(docket), fileType)];
          assert patterns == done + pair;
          AppendAssoc(before, FileTypePatterns(DocketScope(docket), fileTypes[..k]), pair);
        }
        assert fileTypes[..|fileTypes|] == fileTypes;
      }
    }
    assert dockets[..|dockets|] == dockets;
  }

  /** The innermost loop of `generate_include_patterns`: one agency and year, every file type. */
  method AppendFileTypePatterns(patterns: seq<string>, agency: string, year: YearFilter, fileTypes: seq<string>)
    returns (extended: seq<string>)
    ensures extended == patterns + FileTypePatterns(Scope(agency, year), fileTypes)
  {
    extended := patterns;
    for k := 0 to |fileTypes|
      invariant extended == patterns + FileTypePatterns(Scope(agency, year), fileTypes[..k])
    {
      var fileType := fileTypes[k];
      ghost var done := extended;
      var derived, raw := PatternPair(agency, year, fileType);
      extended := extended + [derived];
      extended := extended + [raw];
      FileTypeStep(Scope(agency, year), fileTypes, k);
      assert extended == done + [derived, raw];
      AppendAssoc(patterns, FileTypePatterns(Scope(agency, year), fileTypes[..k]), [derived, raw]);
    }
    assert fileTypes[..|fileTypes|] == fileTypes;
  }

  /** `generate_include_patterns`: the list built by appending in nested loops. */
  method GenerateIncludePatterns(agencies: seq<string>, years: seq<YearFilter>, dockets: seq<string>,
                                 fileTypes: seq<string>) returns (patterns: seq<string>)
    ensures patterns == IncludePatterns(agencies, years, dockets, fileTypes)
  {
    if |dockets| > 0 {
      patterns := DocketModePatterns(dockets, fileTypes);
      return patterns;
    }

    patterns := [];
    for i := 0 to |agencies|
      invariant patterns == CrossPatterns(agencies[..i], years, fileTypes)
    {
      var agency := agencies[i];
      assert agencies[..i + 1][..i] == agencies[..i];
      ghost var beforeAgency := patterns;
      for j := 0 to |years|
        invariant patterns == beforeAgency + YearPatterns(agency, years[..j], fileTypes)
      {
        var year := years[j];
        assert years[..j + 1][..j] == years[..j];
        patterns := AppendFileTypePatterns(patterns, agency, year, fileTypes);
        assert YearPatterns(agency, years[..j + 1], fileTypes)
            == YearPatterns(agency, years[..j], fileTypes) + FileTypePatterns(Scope(agency, year), fileTypes);
        AppendAssoc(beforeAgency, YearPatterns(agency, years[..j], fileTypes), FileTypePatterns(Scope(agency, year), fileTypes));
      }
      assert years[..|years|] == years;
      assert CrossPatterns(agencies[..i + 1], years, fileTypes)
          == CrossPatterns(agencies[..i], years, fileTypes) + YearPatterns(agency, years, fileTypes);
    }
    assert agencies[..|agencies|] == agencies;
  }

  // ---------------------------------------------------------------------------
  // Properties of the patterns
  // ---------------------------------------------------------------------------

  lemma MulSucc(a: nat, n: nat)
    ensures a * n + a == a * (n + 1)
  {
  }

  /** Each qualified docket gives two patterns per file type, any other docket none. */
  lemma {:induction false} AllDocketPatternsLength(dockets: seq<string>, fileTypes: seq<string>)
    ensures |AllDocketPatterns(dockets, fileTypes)| == 2 * |fileTypes| * |QualifiedDockets(dockets)|
  {
    if |dockets| > 0 {
      var init := dockets[..|dockets| - 1];
      AllDocketPatternsLength(init, fileTypes);
      MulSucc(2 * |fileTypes|, |QualifiedDockets(init)|);
    }
  }

  lemma {:induction false} YearPatternsLength(agency: string, years: seq<YearFilter>, fileTypes: seq<string>)
    ensures |YearPatterns(agency, years, fileTypes)| == 2 * |fileTypes| * |years|
  {
    if |years| > 0 {
      var n := |years| - 1;
      YearPatternsLength(agency, years[..n], fileTypes);
      MulSucc(2 * |fileTypes|, n);
    }
  }

  lemma {:induction false} CrossPatternsLength(agencies: seq<string>, years: seq<YearFilter>, fileTypes: seq<string>)
    ensures |CrossPatterns(agencies, years, fileTypes)| == 2 * |fileTypes| * |years| * |agencies|
  {
    if |agencies| > 0 {
      var n := |agencies| - 1;
      CrossPatternsLength(agencies[..n], years, fileTypes);
      YearPatternsLength(agencies[n], years, fileTypes);
      MulSucc(2 * |fileTypes| * |years|, n);
    }
  }

  lemma CountReorder(a: nat, y: nat, f: nat)
    ensures 2 * f * y * a == 2 * a * y * f
  {
  }

  /**
   * The number of patterns: two per file type for every qualified docket in
   * docket mode, two per agency, year and file type otherwise.
   */
  lemma PatternCount(agencies: seq<string>, years: seq<YearFilter>, dockets: seq<string>, fileTypes: seq<string>)
    ensures |IncludePatterns(agencies, years, dockets, fileTypes)|
         == if |dockets| > 0 then 2 * |fileTypes| * |QualifiedDockets(dockets)|
            else 2 * |agencies| * |years| * |fileTypes|
  {
    if |dockets| > 0 {
      AllDocketPatternsLength(dockets, fileTypes);
    } else {
      CrossPatternsLength(agencies, years, fileTypes);
      CountReorder(|agencies|, |years|, |fileTypes|);
    }
  }
  /** In docket mode the agency and year lists have no effect. */
  lemma DocketModeIgnoresAgenciesAndYears(agencies: seq<string>, years: seq<YearFilter>,
                                          otherAgencies: seq<string>, otherYears: seq<YearFilter>,
                                          dockets: seq<string>, fileTypes: seq<string>)
    requires |dockets| > 0
    ensures IncludePatterns(agencies, years, dockets, fileTypes)
         == IncludePatterns(otherAgencies, otherYears, dockets, fileTypes)
  {
  }

  /** A docket identifier qualifies exactly when it holds at least two hyphens. */
  lemma QualifiedHasTwoHyphens(docket: string)
    ensures Qualified(docket) <==> Count(docket, '-') >= 2
  {
  }

  /** Dockets are taken in input order: the patterns of a concatenation are concatenated. */
  lemma {:induction false} AllDocketPatternsAppend(first: seq<string>, second: seq<string>, fileTypes: seq<string>)
    ensures AllDocketPatterns(first + second, fileTypes)
         == AllDocketPatterns(first, fileTypes) + AllDocketPatterns(second, fileTypes)
  {
    if |second| == 0 {
      assert first + second == first;
    } else {
      var n := |second| - 1;
      assert (first + second)[..|first + second| - 1] == first + second[..n];
      assert (first + second)[|first + second| - 1] == second[n];
      AllDocketPatternsAppend(first, second[..n], fileTypes);
      AppendAssoc(AllDocketPatterns(first, fileTypes), AllDocketPatterns(second[..n], fileTypes),
                  DocketPatterns(second[n], fileTypes));
    }
  }

  /** A list of dockets none of which qualifies yields no pattern at all. */
  lemma {:induction false} UnqualifiedDocketsYieldNothing(dockets: seq<string>, fileTypes: seq<string>)
    requires forall i :: 0 <= i < |dockets| ==> !Qualified(dockets[i])
    ensures AllDocketPatterns(dockets, fileTypes) == []
  {
    if |dockets| > 0 {
      UnqualifiedDocketsYieldNothing(dockets[..|dockets| - 1], fileTypes);
    }
  }

  /**
   * The shape of a docket's patterns: for its `k`-th file type F, the
   * derived-data pattern under the directories A and D, then the raw-data
   * one, where A is the text of the docket D before its first hyphen.
   */
  lemma DocketPatternShape(docket: string, fileTypes: seq<string>, k: nat)
    requires Qualified(docket) && k < |fileTypes|
    ensures var agency := Split(docket, '-')[0];
      && '-' !in agency && |agency| < |docket| && agency == docket[..|agency|] && docket[|agency|] == '-'
      && |DocketPatterns(docket, fileTypes)| == 2 * |fileTypes|
      && DocketPatterns(docket, fileTypes)[2 * k] == "/derived-data/" + agency + "/" + docket + "/**/" + fileTypes[k]
      && DocketPatterns(docket, fileTypes)[2 * k + 1] == "/raw-data/" + agency + "/" + docket + "/**/" + fileTypes[k]
  {
    var agency := Split(docket, '-')[0];
    SplitFirst(docket, '-');
    SplitThenJoin(docket, '-');
    DocketShape(agency, docket, fileTypes[k]);
  }

  /** Years are taken in order: the patterns of a concatenation of year lists are concatenated. */
  lemma {:induction false} YearPatternsAppend(agency: string, first: seq<YearFilter>, second: seq<YearFilter>, fileTypes: seq<string>)
    ensures YearPatterns(agency, first + second, fileTypes)
         == YearPatterns(agency, first, fileTypes) + YearPatterns(agency, second, fileTypes)
  {
    if |second| == 0 {
      assert first + second == first;
    } else {
      var n := |second| - 1;
      assert (first + second)[..|first + second| - 1] == first + second[..n];
      assert (first + second)[|first + second| - 1] == second[n];
      YearPatternsAppend(agency, first, second[..n], fileTypes);
      AppendAssoc(YearPatterns(agency, first, fileTypes), YearPatterns(agency, second[..n], fileTypes),
                  FileTypePatterns(Scope(agency, second[n]), fileTypes));
    }
  }

  /** Agencies are taken in order: the patterns of a concatenation of agency lists are concatenated. */
  lemma {:induction false} CrossPatternsAppend(first: seq<string>, second: seq<string>, years: seq<YearFilter>, fileTypes: seq<string>)
    ensures CrossPatterns(first + second, years, fileTypes)
         == CrossPatterns(first, years, fileTypes) + CrossPatterns(second, years, fileTypes)
  {
    if |second| == 0 {
      assert first + second == first;
    } else {
      var n := |second| - 1;
      assert (first + second)[..|first + second| - 1] == first + second[..n];
      assert (first + second)[|first + second| - 1] == second[n];
      CrossPatternsAppend(first, second[..n], years, fileTypes);
      AppendAssoc(CrossPatterns(first, years, fileTypes), CrossPatterns(second[..n], years, fileTypes),
                  YearPatterns(second[n], years, fileTypes));
    }
  }


  lemma CrossPatternsSplit(agencies: seq<string>, years: seq<YearFilter>, fileTypes: seq<string>, i: nat)
    requires i < |agencies|
    ensures CrossPatterns(agencies, years, fileTypes)
         == CrossPatterns(agencies[..i], years, fileTypes) + YearPatterns(agencies[i], years, fileTypes)
            + CrossPatterns(agencies[i + 1..], years, fileTypes)
  {
    var front, middle, rest := agencies[..i], [agencies[i]], agencies[i + 1..];
    assert agencies == front + middle + rest;
    CrossPatternsAppend(front + middle, rest, years, fileTypes);
    CrossPatternsAppend(front, middle, years, fileTypes);
    assert middle[..0] == [];
    var block := YearPatterns(agencies[i], years, fileTypes);
    assert CrossPatterns(middle, years, fileTypes) == [] + block;
    assert [] + block == block;
  }


  /**
   * Where the block of the agency `i` and the year `j` starts when there are
   * `years` years and `fileTypes` file types.
   */
  function BlockIndex(i: nat, j: nat, years: nat, fileTypes: nat): nat
  {
    2 * ((i * years + j) * fileTypes)
  }

  lemma CrossIndex(i: nat, j: nat, years: nat, fileTypes: nat)
    ensures BlockIndex(i, j, years, fileTypes) == (2 * fileTypes * years) * i + (2 * fileTypes) * j
  {
    assert (i * years + j) * fileTypes == i * years * fileTypes + j * fileTypes;
  }

  lemma NestedIndex(a: seq<string>, b: seq<string>, block: seq<string>, c: seq<string>, d: seq<string>, m: nat)
    requires m < |block|
    ensures |a| + |b| + m < |a + (b + block + c) + d|
    ensures (a + (b + block + c) + d)[|a| + |b| + m] == block[m]
  {
    MiddleIndex(b, block, c, m);
    MiddleIndex(a, b + block + c, d, |b| + m);
  }

  lemma YearPatternsSplit(agency: string, years: seq<YearFilter>, fileTypes: seq<string>, j: nat)
    requires j < |years|
    ensures YearPatterns(agency, years, fileTypes)
         == YearPatterns(agency, years[..j], fileTypes) + FileTypePatterns(Scope(agency, years[j]), fileTypes)
            + YearPatterns(agency, years[j + 1..], fileTypes)
  {
    var front, middle, rest := years[..j], [years[j]], years[j + 1..];
    assert years == front + middle + rest;
    YearPatternsAppend(agency, front + middle, rest, fileTypes);
    YearPatternsAppend(agency, front, middle, fileTypes);
    assert middle[..0] == [];
    var block := FileTypePatterns(Scope(agency, years[j]), fileTypes);
    assert YearPatterns(agency, middle, fileTypes) == [] + block;
    assert [] + block == block;
  }

  /** Pattern `m` of the pair block for agency `i` and year `j`, located by the lengths of the blocks before it. */
  lemma CrossPatternsBlockAt(agencies: seq<string>, years: seq<YearFilter>, fileTypes: seq<string>, i: nat, j: nat, m: nat)
    requires i < |agencies| && j < |years| && m < |FileTypePatterns(Scope(agencies[i], years[j]), fileTypes)|
    ensures var start := |CrossPatterns(agencies[..i], years, fileTypes)| + |YearPatterns(agencies[i], years[..j], fileTypes)|;
      && start + m < |CrossPatterns(agencies, years, fileTypes)|
      && CrossPatterns(agencies, years, fileTypes)[start + m] == FileTypePatterns(Scope(agencies[i], years[j]), fileTypes)[m]
  {
    CrossPatternsSplit(agencies, years, fileTypes, i);
    YearPatternsSplit(agencies[i], years, fileTypes, j);
    NestedIndex(CrossPatterns(agencies[..i], years, fileTypes), YearPatterns(agencies[i], years[..j], fileTypes),
                FileTypePatterns(Scope(agencies[i], years[j]), fileTypes), YearPatterns(agencies[i], years[j + 1..], fileTypes),
                CrossPatterns(agencies[i + 1..], years, fileTypes), m);
  }

  /**
   * The blocks before that of agency `i` and year `j` hold
   * `2 * ((i * |years| + j) * |fileTypes|)` patterns: `i` agencies' worth of
   * years and `j` more years, each with two patterns per file type.
   */
  lemma BlockStart(agencies: seq<string>, years: seq<YearFilter>, fileTypes: seq<string>, i: nat, j: nat)
    requires i < |agencies| && j < |years|
    ensures |CrossPatterns(agencies[..i], years, fileTypes)| + |YearPatterns(agencies[i], years[..j], fileTypes)|
         == BlockIndex(i, j, |years|, |fileTypes|)
  {
    CrossPatternsLength(agencies[..i], years, fileTypes);
    YearPatternsLength(agencies[i], years[..j], fileTypes);
    CrossIndex(i, j, |years|, |fileTypes|);
  }

  /**
   * The exact order in agency/year mode: agencies outermost, then years.
   * Each (agency, year) pair owns one block of patterns (`FileTypePatterns`:
   * for each file type, the derived-data pattern and then the raw-data one),
   * and that block comes right after the blocks of all earlier agencies and
   * of the earlier years of the same agency. `BlockStart` gives the offset
   * in closed form.
   */
  lemma CrossPatternOrder(agencies: seq<string>, years: seq<YearFilter>, fileTypes: seq<string>, i: nat, j: nat, m: nat)
    requires i < |agencies| && j < |years| && m < |FileTypePatterns(Scope(agencies[i], years[j]), fileTypes)|
    ensures var t := |CrossPatterns(agencies[..i], years, fileTypes)| + |YearPatterns(agencies[i], years[..j], fileTypes)| + m;
      && t < |IncludePatterns(agencies, years, [], fileTypes)|
      && IncludePatterns(agencies, years, [], fileTypes)[t] == FileTypePatterns(Scope(agencies[i], years[j]), fileTypes)[m]
  {
    CrossPatternsBlockAt(agencies, years, fileTypes, i, j, m);
  }
}
