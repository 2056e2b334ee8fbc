# mirrulations downloader, modelled in Dafny

`mirrulations_downloader.py` builds one `rclone copy` command that downloads
part of the Mirrulations mirror of regulations.gov: the derived-data and
raw-data trees, narrowed by agency, by year, by docket identifier, or to
text files only. This project models the parts of that program that decide
what happens and build that command, and proves what they do:

- `parse_years` (module `Years`): the `--year` comma list of years and
  inclusive `a-b` ranges. Where `parse_years` raises `ValueError` (from
  `int`, or from the two-name unpacking at line 14 when an item has more
  than one hyphen), the model records the comma item it raised on; Python's
  exception does not carry that item, it is the model's choice of error
  value;
- `generate_include_patterns` (module `Patterns`): the docket branch (only
  identifiers with at least three hyphen parts, under the agency before the
  first hyphen) and the agency × year × file-type branch with its four
  wildcard cases, as nested appending loops proved equal to recursive
  definitions;
- `main` (modules `Options` and `Downloader`): the comma lists of
  `--agency` and `--docket`, whose items are stripped and dropped when
  blank, and the year list, empty when `--year` is;
- `run_command` (module `Downloader`): the transfers value (default 50, and
  twice as many checkers), the checks in the order the program makes them,
  the wildcard standing in for a missing agency or year list, the text-only
  file types, and the command with one `--include` clause per pattern. The
  result is an `Outcome`: the command offered, the reason for exiting, or
  the comma item of `--year` on which `parse_years` raises `ValueError`.

`Text` holds the parts of Python's `str` that these use (`split`, `strip`,
`isnumeric`, `int`, `str`), and `Scenarios` holds concrete runs derived
from the model: the patterns for the options the repository's test scripts
pass (`--agency AHRQ`, `--year 1995`, `--docket CMS-2025-0050`, none of them
with `--textonly`), the wildcard case with no filter, and a malformed docket.

The environment variables and the file-system checks on them are inputs
(`Environment`: the two paths, whether the first exists, whether the second
is a file). Printing, the confirmation prompt, running the command and
timing are not modelled.

## Model

| member | source | states |
|---|---|---|
| `Years.ParseYears` | mirrulations_downloader.py:10-18 | the loop over the comma items returns exactly `YearList`: the years of every item in order, or the first failing item |
| `Years.Range` | mirrulations_downloader.py:15 | `range(lo, hi)` has `hi - lo` elements (none when `hi <= lo`) and its k-th is `lo + k` |
| `Years.YearListOk` | mirrulations_downloader.py:12-17 | the year list is produced exactly when every comma item is a single integer or two integers around one hyphen |
| `Years.ConcatAllStopAt` | mirrulations_downloader.py:12-17 | once every earlier item succeeded, the first failing item is the error of the whole call |
| `Years.YearListAppend` | mirrulations_downloader.py:12-15 | the years of `s,t` are those of `s` followed by those of `t`, and an error in `s` comes first |
| `Years.YearListSingle` | mirrulations_downloader.py:16-17 | the decimal text of a year gives the list holding that year alone |
| `Years.TwoBoundsItem` | mirrulations_downloader.py:13-15 | an item with a hyphen that splits into two integers gives the inclusive range between them |
| `Years.YearListRange` | mirrulations_downloader.py:13-15 | `a-b` gives a, a+1, ..., b, and nothing when b < a |
| `Years.YearItemTooManyHyphens` | mirrulations_downloader.py:13-14 | an item with two or more hyphens always raises, with that item |
| `Years.YearListNonNegative` | mirrulations_downloader.py:13-17 | no year in a successful result is negative, because a minus sign is always read as a range separator |
| `Patterns.GenerateIncludePatterns` | mirrulations_downloader.py:36-79 | the nested appending loops return exactly `IncludePatterns`: the docket patterns when a docket is given, otherwise agency-major, year-minor, file-type blocks |
| `Patterns.DocketModePatterns` | mirrulations_downloader.py:41-52 | the docket loop returns the patterns of each qualified docket in order, nothing for the others |
| `Patterns.AppendFileTypePatterns` | mirrulations_downloader.py:57-77 | the file-type loop appends, for each file type in order, the derived-data pattern and then the raw-data one of the scope |
| `Patterns.PatternPair` | mirrulations_downloader.py:58-77 | each of the four wildcard cases writes the derived-data and raw-data patterns of `Scope(agency, year)` |
| `Patterns.FileTypePatterns` | mirrulations_downloader.py:48-51 | two patterns per file type: at 2k the derived-data one and at 2k+1 the raw-data one of the k-th file type |
| `Patterns.QualifiedDockets` | mirrulations_downloader.py:42-45 | the dockets kept are qualified, taken from the input, and no more numerous than it |
| `Patterns.PatternCount` | mirrulations_downloader.py:36-79 | 2 × file types × qualified dockets patterns in docket mode, 2 × agencies × years × file types otherwise |
| `Patterns.DocketModeIgnoresAgenciesAndYears` | mirrulations_downloader.py:41-52 | once a docket is given, the agency and year lists have no effect on the result |
| `Patterns.QualifiedHasTwoHyphens` | mirrulations_downloader.py:44-45 | a docket identifier qualifies exactly when it holds at least two hyphens |
| `Patterns.UnqualifiedDocketsYieldNothing` | mirrulations_downloader.py:44-45 | dockets none of which qualifies yield the empty list |
| `Patterns.AllDocketPatternsAppend` | mirrulations_downloader.py:42-51 | dockets are handled in input order: the patterns of two docket lists joined are the two pattern lists joined |
| `Patterns.DocketPatternShape` | mirrulations_downloader.py:44-51 | the agency is the text before the docket's first hyphen, and the k-th file type gives `/derived-data/A/D/**/F` then `/raw-data/A/D/**/F` |
| `Patterns.YearPatternsAppend` | mirrulations_downloader.py:56-77 | years are handled in order: joining year lists joins one agency's patterns |
| `Patterns.CrossPatternsAppend` | mirrulations_downloader.py:55-77 | agencies are handled in order: joining agency lists joins the patterns |
| `Patterns.BlockStart` | mirrulations_downloader.py:55-57 | the block of agency i and year j starts after 2 × (i × years + j) × file types patterns |
| `Patterns.CrossPatternOrder` | mirrulations_downloader.py:55-77 | in agency/year mode, the m-th pattern of the pair (agency i, year j) sits at that block's start plus m |
| `Text.Split` | mirrulations_downloader.py:12 | `str.split(sep)` gives one piece more than there are separators, none holding a separator |
| `Text.SplitThenJoin` | mirrulations_downloader.py:44 | joining the pieces of a split with the separator gives the text back |
| `Text.JoinThenSplit` | mirrulations_downloader.py:91-92 | splitting pieces joined by a separator they do not hold gives the pieces back |
| `Text.SplitAround` | mirrulations_downloader.py:12 | splitting `s + sep + t` gives the pieces of `s` and then those of `t` |
| `Text.Strip` | mirrulations_downloader.py:91-92 | `str.strip` keeps no white space at either end and is no longer than its input |
| `Text.StripIdempotent` | mirrulations_downloader.py:91-92 | stripping twice is stripping once |
| `Text.StripBlank` | mirrulations_downloader.py:91-92 | a text strips to nothing exactly when it is all white space |
| `Text.ParseIntOfIntToString` | mirrulations_downloader.py:14-17 | `int(str(n))` is `n` for every integer |
| `Text.ParseIntOfDigits` | mirrulations_downloader.py:110-115 | `int` of a text that `isnumeric` accepts is its decimal value |
| `Text.ParseIntWithoutMinus` | mirrulations_downloader.py:14-17 | `int` of a text without a minus sign is never negative |
| `Text.ParseIntNeedsDigits` | mirrulations_downloader.py:14-17 | `int` fails on a blank text and on a lone sign |
| `Options.CleanItems` | mirrulations_downloader.py:91-92 | the kept items are no more numerous than the input, and none is blank or has white space at either end |
| `Options.CommaList` | mirrulations_downloader.py:91-92 | every item of an `--agency` or `--docket` list is non-blank, comma-free and stripped |
| `Options.CommaListAppend` | mirrulations_downloader.py:91-92 | the list of `s,t` is the list of `s` followed by the list of `t` |
| `Options.CleanItemsOfClean` | mirrulations_downloader.py:91-92 | items that are already non-blank, comma-free and stripped pass through unchanged |
| `Options.CommaListRoundTrip` | mirrulations_downloader.py:91-92 | reading back the comma-joined text of such items gives the same items |
| `Options.CommaListIdempotent` | mirrulations_downloader.py:91-92 | writing a non-empty list back and reading it again changes nothing |
| `Options.CleanItemsEmpty` | mirrulations_downloader.py:91-92 | the list is empty exactly when every comma item strips to nothing |
| `Options.CommaListBlank` | mirrulations_downloader.py:91-92 | an option made only of commas and white space, the empty one included, gives the empty list |
| `Downloader.TransfersToUse` | mirrulations_downloader.py:108-114 | no value exactly when `--transfers` is non-empty and not numeric; otherwise a numeric value, the option itself when it is given |
| `Downloader.AgencyFilters` | mirrulations_downloader.py:128-132 | the agency list handed to the pattern generator is never empty |
| `Downloader.YearFilters` | mirrulations_downloader.py:134-138 | the year list handed on is the given years in order, or the wildcard alone |
| `Downloader.FileTypes` | mirrulations_downloader.py:148-153 | at least one file type is always handed on |
| `Downloader.Limitations` | mirrulations_downloader.py:120-153 | the flags and lists `run_command` derives: limited exactly when an agency, year, docket or text-only is given, enough exactly when one of these or `--getall` is given |
| `Downloader.FlagsFor` | mirrulations_downloader.py:115-118 | the always-present flags, with the checkers computed through `int`, equal `AlwaysFlags`, the flag text of line 118 |
| `Downloader.AppendIncludes` | mirrulations_downloader.py:197-199 | the `+=` loop yields `WithIncludes`: one clause per pattern, in order |
| `Downloader.Decide` | mirrulations_downloader.py:101-202 | `run_command` as written: a command is offered exactly when transfers are numeric, both paths are present and exactly one of `--getall` and a limitation is given; it never raises and never stops for a missing pattern |
| `Downloader.RunCommand` | mirrulations_downloader.py:101-202 | `run_command` ends exactly as `DecideGuarded`: the exits of the program as written (`Decide`) in the same order and the same command, except that a filtered request yielding no pattern stops (see Findings) |
| `Downloader.RunOptions` | mirrulations_downloader.py:90-99 | `main` ends exactly as `Invocation`: the year list of lines 94-97 (`YearOption`: empty when `--year` is, else `parse_years`), the comma item on which `parse_years` raises, or what the corrected `run_command` (`DecideGuarded`) does with the lists |
| `Downloader.OutcomeClassification` | mirrulations_downloader.py:108-187 | the exact condition of each exit, with earlier checks hiding later ones; a command is offered exactly when transfers are numeric, both paths are present, and exactly one of `--getall` and a filter is given |
| `Downloader.WithIncludesIsConcat` | mirrulations_downloader.py:197-199 | appending the clauses one at a time appends all of them, in pattern order |
| `Downloader.IncludeClause` | mirrulations_downloader.py:199 | the clause of one pattern is the pattern with 14 characters of `--include` and quoting around it, the pattern at offset 12 |
| `Downloader.ClausesLength` | mirrulations_downloader.py:199 | each pattern lengthens the command by at least 14 characters |
| `Downloader.FilteredCommand` | mirrulations_downloader.py:194-202 | a filtered command is `BaseCommand` (the `rclone copy` text of line 182) followed by the clauses of the generated patterns |
| `Downloader.FiltersWithoutDockets` | mirrulations_downloader.py:128-153 | without dockets, a filtered download has 2 × agencies × years × file types patterns, so at least one |
| `Downloader.CheckersTwiceTransfers` | mirrulations_downloader.py:115-118 | the checkers count, read back, is twice the transfers count |
| `Downloader.DefaultFlags` | mirrulations_downloader.py:108-118 | an empty `--transfers` gives 50 transfers and 100 checkers |
| `Downloader.UnqualifiedDocketsDownloadEverything` | mirrulations_downloader.py:195-202 | as written: a request whose dockets all have fewer than three hyphen parts offers the very command `--getall` runs |
| `Downloader.GuardedNeverUnfiltered` | mirrulations_downloader.py:184-202 | corrected: a command without any `--include` clause is offered exactly under `--getall`, and every other command is longer than the base |
| `Downloader.GuardedAgrees` | mirrulations_downloader.py:184-202 | the correction changes nothing under `--getall` or when some pattern exists |
| `Downloader.GuardedStopsUnqualifiedDockets` | mirrulations_downloader.py:44-45 | corrected: a request for malformed dockets only stops |
| `Downloader.YearErrorFirst` | mirrulations_downloader.py:94-95 | a malformed year item raises before any check of `run_command` |
| `Downloader.NothingGivenStops` | mirrulations_downloader.py:155-159 | with no agency, year, docket or text-only option and no `--getall`, `run_command` stops for any valid transfers value |
| `Downloader.NoOptionsStops` | mirrulations_downloader.py:90-99 | `main` with every option left at its default stops and asks for `--getall` or a filter |
| `Scenarios.EverythingPatterns` | mirrulations_downloader.py:60-63 | no agency and no year give `/derived-data/**/*` and `/raw-data/**/*` |
| `Scenarios.AgencyPatterns` | mirrulations_downloader.py:64-67 | agency AHRQ gives `/derived-data/AHRQ/**/*` and `/raw-data/AHRQ/**/*` |
| `Scenarios.YearPatterns1995` | mirrulations_downloader.py:70-73 | year 1995 gives `/derived-data/*/*-1995-*/**/*` and `/raw-data/*/*-1995-*/**/*` |
| `Scenarios.OnePairPatterns` | mirrulations_downloader.py:55-77 | one agency, one year and one file type give exactly one derived-data and one raw-data pattern |
| `Scenarios.CmsDocketParts` | mirrulations_downloader.py:44 | `CMS-2025-0050` splits into `CMS`, `2025` and `0050` |
| `Scenarios.OneDocketPatterns` | mirrulations_downloader.py:44-51 | one qualified docket and one file type give exactly its two patterns |
| `Scenarios.DocketPatterns2025` | mirrulations_downloader.py:41-51 | docket CMS-2025-0050 with every file type gives `/derived-data/CMS/CMS-2025-0050/**/*` and `/raw-data/CMS/CMS-2025-0050/**/*` |
| `Scenarios.CrossOrderTwoByTwo` | mirrulations_downloader.py:55-77 | two agencies and two years give the pairs A1×Y1, A1×Y2, A2×Y1, A2×Y2, each derived-data then raw-data |
| `Scenarios.MalformedDocketDownloadsEverything` | mirrulations_downloader.py:44-45 | `--docket CMS-2025` alone offers the whole-mirror command |

## Left out

- `print_and_run_command_array` (lines 21-33): printing the commands, the confirmation prompt, `os.system` and the exit on refusal are I/O; the model ends with the command offered (`Run`).
- The printed messages before each `exit()` are not modelled; the `ExitReason` says which exit was taken.
- `Downloader.RunCommand`: follows the corrected `DecideGuarded`, not the program as written, when a filtered request yields no pattern; `Downloader.Decide` keeps the as-written behaviour, and Findings states the difference.
- `Downloader.RunOptions`: inherits the `DecideGuarded` correction through `Invocation`, so on `--docket CMS-2025` alone it stops with `NoIncludePatterns` where the program as written offers the bare base command (`Decide` and `UnqualifiedDocketsDownloadEverything` state the as-written outcome).
- Timing (lines 104 and 206-215) is clock I/O and does not affect the outcome.
- The `click` declarations (lines 82-88): option values arrive already as strings and booleans.
- `load_dotenv` and `os.getenv`: the two paths are inputs. An unset variable (`None`, on which `os.path.exists` raises) is not modelled.
- `os.path.exists` and `os.path.isfile` are inputs: the two booleans of `Environment`.
- What `rclone` does with the command and how it reads its glob patterns are outside the program.
- The repository's test scripts are not part of this model: they run the downloader and inspect the downloaded directories. `Scenarios` derives the patterns for the options they pass; no script runs the no-filter case.
- `Text.IsNumeric`: accepts ASCII decimal digits only, whereas `str.isnumeric` also accepts other Unicode numeric characters, some of which make `int` raise.
- `Text.ParseInt`: models `int` on ASCII digits with an optional sign and surrounding white space; underscores between digits and non-ASCII digits are not accepted, and CPython's limit on converting digit strings longer than 4300 digits (3.11 and later, where `int` raises `ValueError`, as it would at lines 14, 17 and 115) is not modelled: the model parses any length.
- `Text.IsSpace`: covers the ASCII white space characters and `\x1c`-`\x1f`, not the rest of Unicode white space that `str.strip` removes.

## Findings

| source | as written | input that shows it | evidently intended | confidence | as-written member | corrected member |
|---|---|---|---|---|---|---|
| mirrulations_downloader.py:195-202 | dockets with fewer than three hyphen parts are dropped (lines 44-45), yet the request still counts as limited, so the filtered command gets no `--include` clause and copies the whole mirror | `--docket CMS-2025` with both paths present | a filtered download with no pattern stops instead of downloading everything, which `run_command` otherwise allows only under `--getall` | not executed | `Downloader.UnqualifiedDocketsDownloadEverything` | `Downloader.GuardedNeverUnfiltered` |
