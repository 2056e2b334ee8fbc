/**
 * Concrete runs of the pattern generator and of `run_command`: the patterns
 * for the options the downloader's test scripts pass (`--agency AHRQ`,
 * `--year 1995`, `--docket CMS-2025-0050`, none with `--textonly`), the
 * wildcard case with no filter at all, and a malformed docket. The scripts
 * themselves inspect the downloaded directories; the pattern lists here are
 * derived from the model.
 */
module Scenarios {
  import opened Wrappers
  import opened Text
  import opened Patterns
  import opened Downloader

  /** No agency, no year, every file type: the whole of both trees. */
  lemma EverythingPatterns()
    ensures IncludePatterns([AnyAgency], [AnyYear], [], ["*"]) == ["/derived-data/**/*", "/raw-data/**/*"]
  {
    OnePairPatterns(AnyAgency, AnyYear, "*");
    assert Scope(AnyAgency, AnyYear) == "";
    EverythingShape("*");
    assert "/derived-data/**/" + "*" == "/derived-data/**/*";
    assert "/raw-data/**/" + "*" == "/raw-data/**/*";
  }

  /** One agency, every year (the AHRQ test). */
  lemma AgencyPatterns()
    ensures IncludePatterns(["AHRQ"], [AnyYear], [], ["*"]) == ["/derived-data/AHRQ/**/*", "/raw-data/AHRQ/**/*"]
  {
    OnePairPatterns("AHRQ", AnyYear, "*");
    assert Scope("AHRQ", AnyYear) == "AHRQ" + "/";
    AgencyShape("AHRQ", "*");
    assert "/derived-data/" + "AHRQ" + "/**/" + "*" == "/derived-data/AHRQ/**/*";
    assert "/raw-data/" + "AHRQ" + "/**/" + "*" == "/raw-data/AHRQ/**/*";
  }

  /** Every agency, one year (the 1995 test): dockets whose identifier holds `-1995-`. */
  lemma YearPatterns1995()
    ensures IncludePatterns([AnyAgency], [InYear(1995)], [], ["*"])
         == ["/derived-data/*/*-1995-*/**/*", "/raw-data/*/*-1995-*/**/*"]
  {
    OnePairPatterns(AnyAgency, InYear(1995), "*");
    assert IntToString(1995) == "1995" by {
      assert DigitChar(1) == '1' && DigitChar(9) == '9' && DigitChar(5) == '5';
      assert NatToString(1) == "1";
      assert NatToString(19) == NatToString(1) + "9";
      assert NatToString(199) == NatToString(19) + "9";
      assert NatToString(1995) == NatToString(199) + "5";
    }
    assert Scope(AnyAgency, InYear(1995)) == "*/*-" + "1995" + "-*/";
    AnyAgencyYearShape("1995", "*");
    assert "/derived-data/*/*-" + "1995" + "-*/**/" + "*" == "/derived-data/*/*-1995-*/**/*";
    assert "/raw-data/*/*-" + "1995" + "-*/**/" + "*" == "/raw-data/*/*-1995-*/**/*";
  }

  /** One agency, one year and one file type give exactly one derived-data and one raw-data pattern. */
  lemma OnePairPatterns(agency: string, year: YearFilter, fileType: string)
    ensures IncludePatterns([agency], [year], [], [fileType])
         == [Derived(Scope(agency, year), fileType), Raw(Scope(agency, year), fileType)]
  {
    OneFileType(Scope(agency, year), fileType);
    assert YearPatterns(agency, [year], [fileType]) == [] + FileTypePatterns(Scope(agency, year), [fileType]) by {
      assert [year][..0] == [];
    }
    assert CrossPatterns([agency], [year], [fileType]) == [] + YearPatterns(agency, [year], [fileType]) by {
      assert [agency][..0] == [];
    }
  }

  /** The identifier of the CMS test splits into its agency, year and sequence number. */
  lemma CmsDocketParts()
    ensures Split("CMS-2025-0050", '-') == ["CMS", "2025", "0050"]
  {
    var parts := ["CMS", "2025", "0050"];
    assert Join(parts, '-') == "CMS-2025-0050" by {
      assert Join(parts[1..], '-') == "2025" + "-" + "0050" by {
        assert parts[1..][1..] == ["0050"];
      }
    }
    forall i | 0 <= i < |parts| ensures '-' !in parts[i] {
    }
    JoinThenSplit(parts, '-');
  }

  /** One qualified docket and one file type give one derived-data and one raw-data pattern. */
  lemma OneDocketPatterns(docket: string, fileType: string)
    requires Qualified(docket)
    ensures IncludePatterns([], [], [docket], [fileType])
         == [Derived(DocketScope(docket), fileType), Raw(DocketScope(docket), fileType)]
  {
    OneFileType(DocketScope(docket), fileType);
    assert AllDocketPatterns([docket], [fileType]) == [] + DocketPatterns(docket, [fileType]) by {
      assert [docket][..0] == [];
    }
  }

  /** One docket, every file type (the CMS test): the docket directory under its agency, in both trees. */
  lemma DocketPatterns2025()
    ensures IncludePatterns([], [], ["CMS-2025-0050"], ["*"])
         == ["/derived-data/CMS/CMS-2025-0050/**/*", "/raw-data/CMS/CMS-2025-0050/**/*"]
  {
    var docket := "CMS-2025-0050";
    CmsDocketParts();
    OneDocketPatterns(docket, "*");
    assert DocketScope(docket) == "CMS" + "/" + docket + "/";
    DocketShape("CMS", docket, "*");
    CmsDocketText();
  }

  lemma CmsDocketText()
    ensures "/derived-data/" + "CMS" + "/" + "CMS-2025-0050" + "/**/" + "*" == "/derived-data/CMS/CMS-2025-0050/**/*"
    ensures "/raw-data/" + "CMS" + "/" + "CMS-2025-0050" + "/**/" + "*" == "/raw-data/CMS/CMS-2025-0050/**/*"
  {
    CmsScopeText();
  }

  lemma CmsScopeText()
    ensures "CMS" + "/" + "CMS-2025-0050" + "/**/" + "*" == "CMS/CMS-2025-0050/**/*"
  {
  }

  /** The two patterns of one file type in one scope. */
  lemma OneFileType(scope: string, fileType: string)
    ensures FileTypePatterns(scope, [fileType]) == [Derived(scope, fileType), Raw(scope, fileType)]
  {
    var pairs := FileTypePatterns(scope, [fileType]);
    assert |pairs| == 2 && pairs[0] == Derived(scope, [fileType][0]) && pairs[1] == Raw(scope, [fileType][0]);
  }

  /** One agency and two years: the first year's pair, then the second's. */
  lemma TwoYears(agency: string, y1: YearFilter, y2: YearFilter, fileType: string)
    ensures YearPatterns(agency, [y1, y2], [fileType])
         == FileTypePatterns(Scope(agency, y1), [fileType]) + FileTypePatterns(Scope(agency, y2), [fileType])
  {
    assert [y1, y2][..1] == [y1] && [y1][..0] == [];
    assert YearPatterns(agency, [y1], [fileType]) == [] + FileTypePatterns(Scope(agency, y1), [fileType]);
  }

  /** One agency contributes its year patterns and nothing else. */
  lemma OneAgency(agency: string, years: seq<YearFilter>, fileTypes: seq<string>)
    ensures CrossPatterns([agency], years, fileTypes) == YearPatterns(agency, years, fileTypes)
  {
    var agencies := [agency];
    assert agencies[..0] == [] && agencies[0] == agency;
    assert CrossPatterns(agencies[..0], years, fileTypes) == [];
  }

  /** Two agencies: the first agency's patterns, then the second's. */
  lemma TwoAgencies(a1: string, a2: string, years: seq<YearFilter>, fileTypes: seq<string>)
    ensures CrossPatterns([a1, a2], years, fileTypes) == YearPatterns(a1, years, fileTypes) + YearPatterns(a2, years, fileTypes)
  {
    assert [a1, a2] == [a1] + [a2];
    CrossPatternsAppend([a1], [a2], years, fileTypes);
    OneAgency(a1, years, fileTypes);
    OneAgency(a2, years, fileTypes);
  }

  lemma FourPairs(p: seq<string>, q: seq<string>, r: seq<string>, t: seq<string>)
    requires |p| == 2 && |q| == 2 && |r| == 2 && |t| == 2
    ensures (p + q) + (r + t) == [p[0], p[1], q[0], q[1], r[0], r[1], t[0], t[1]]
  {
  }

  /** Two agencies and two years: agency outermost, each (agency, year) pair with its own two patterns. */
  lemma CrossOrderTwoByTwo(a1: string, a2: string, y1: YearFilter, y2: YearFilter, fileType: string)
    ensures IncludePatterns([a1, a2], [y1, y2], [], [fileType])
         == [Derived(Scope(a1, y1), fileType), Raw(Scope(a1, y1), fileType),
             Derived(Scope(a1, y2), fileType), Raw(Scope(a1, y2), fileType),
             Derived(Scope(a2, y1), fileType), Raw(Scope(a2, y1), fileType),
             Derived(Scope(a2, y2), fileType), Raw(Scope(a2, y2), fileType)]
  {
    var ft := [fileType];
    TwoAgencies(a1, a2, [y1, y2], ft);
    TwoYears(a1, y1, y2, fileType);
    TwoYears(a2, y1, y2, fileType);
    OneFileType(Scope(a1, y1), fileType);
    OneFileType(Scope(a1, y2), fileType);
    OneFileType(Scope(a2, y1), fileType);
    OneFileType(Scope(a2, y2), fileType);
    FourPairs(FileTypePatterns(Scope(a1, y1), ft), FileTypePatterns(Scope(a1, y2), ft),
              FileTypePatterns(Scope(a2, y1), ft), FileTypePatterns(Scope(a2, y2), ft));
  }

  /**
   * A docket identifier with only two parts (`CMS-2025`) produces no
   * pattern, and the filtered command `run_command` builds is the one
   * `--getall` would run.
   */
  lemma MalformedDocketDownloadsEverything(env: Environment)
    requires env.destExists && env.configIsFile
    ensures Decide([], [], ["CMS-2025"], false, false, "", env) == Decide([], [], [], false, true, "", env)
    ensures Decide([], [], [], false, true, "", env) == Run(BaseCommand(env, DefaultTransfers))
  {
    CmsYearParts();
    assert TransfersToUse("") == Some(DefaultTransfers);
    UnqualifiedDocketsDownloadEverything([], [], ["CMS-2025"], false, "", env);
  }

  /** `CMS-2025` has two hyphen parts, one short of a qualified identifier. */
  lemma CmsYearParts()
    ensures !Qualified("CMS-2025")
  {
    SplitWithoutSeparator("CMS", '-');
    SplitWithoutSeparator("2025", '-');
    SplitAround("CMS", "2025", '-');
    assert "CMS" + ['-'] + "2025" == "CMS-2025";
  }
}
