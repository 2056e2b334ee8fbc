/**
 * The command-line options as `main` (mirrulations_downloader.py) turns them
 * into lists: `--agency` and `--docket` are comma lists whose items are
 * stripped of white space and dropped when blank; `--year` is handed to
 * `parse_years` unless it is empty, in which case there is no year filter.
 */
module Options {
  import opened Wrappers
  import opened Text
  import opened Years

  /** An item that can come out of a comma list: not blank, no comma, no white space at either end. */
  predicate Clean(w: string)
  {
    |w| > 0 && ',' !in w && !IsSpace(w[0]) && !IsSpace(w[|w| - 1])
  }

  /** `[x.strip() for x in items if x.strip()]`. */
  function CleanItems(items: seq<string>): (r: seq<string>)
    ensures |r| <= |items|
    ensures forall k :: 0 <= k < |r| ==> r[k] != [] && !IsSpace(r[k][0]) && !IsSpace(r[k][|r[k]| - 1])
  {
    if |items| == 0 then []
    else
      var init, last := items[..|items| - 1], items[|items| - 1];
      var kept := Strip(last);
      CleanItems(init) + (if kept != [] then [kept] else [])
  }

  /** The list `main` builds from an `--agency` or `--docket` value. */
  function CommaList(s: string): (r: seq<string>)
    ensures forall k :: 0 <= k < |r| ==> Clean(r[k])
  {
    CleanItemsHaveNoComma(Split(s, ','));
    CleanItems(Split(s, ','))
  }

  /** Stripping never adds a comma. */
  lemma {:induction false} CleanItemsHaveNoComma(items: seq<string>)
    requires forall j :: 0 <= j < |items| ==> ',' !in items[j]
    ensures forall k :: 0 <= k < |CleanItems(items)| ==> ',' !in CleanItems(items)[k]
  {
    if |items| > 0 {
      var init, last := items[..|items| - 1], items[|items| - 1];
      assert forall j :: 0 <= j < |init| ==> init[j] == items[j];
      CleanItemsHaveNoComma(init);
      StripKeepsAbsent(last, ',');
    }
  }

  /** Filtering the items of `a + b` filters those of `a`, then those of `b`. */
  lemma {:induction false} CleanItemsAppend(a: seq<string>, b: seq<string>)
    ensures CleanItems(a + b) == CleanItems(a) + CleanItems(b)
  {
    if |b| > 0 {
      var b' := b[..|b| - 1];
      assert (a + b)[..|a + b| - 1] == a + b';
      assert (a + b)[|a + b| - 1] == b[|b| - 1];
      CleanItemsAppend(a, b');
    } else {
      assert a + b == a;
    }
  }

  /** The list of `s + "," + t` is the list of `s` followed by the list of `t`. */
  lemma CommaListAppend(s: string, t: string)
    ensures CommaList(s + [','] + t) == CommaList(s) + CommaList(t)
  {
    SplitAround(s, t, ',');
    CleanItemsAppend(Split(s, ','), Split(t, ','));
  }

  lemma CleanIsStripped(w: string)
    requires Clean(w)
    ensures Strip(w) == w
  {
    StripUnchanged(w);
  }

  /** Clean items pass through the filter unchanged. */
  lemma {:induction false} CleanItemsOfClean(items: seq<string>)
    requires forall j :: 0 <= j < |items| ==> Clean(items[j])
    ensures CleanItems(items) == items
  {
    if |items| > 0 {
      var init, last := items[..|items| - 1], items[|items| - 1];
      assert forall j :: 0 <= j < |init| ==> Clean(init[j]) by {
        forall j | 0 <= j < |init| ensures Clean(init[j]) {
          assert init[j] == items[j];
        }
      }
      CleanItemsOfClean(init);
      CleanIsStripped(last);
      assert items == init + [last];
    }
  }

  /** Writing clean items as a comma list and reading it back gives the same items. */
  lemma CommaListRoundTrip(items: seq<string>)
    requires |items| >= 1
    requires forall j :: 0 <= j < |items| ==> Clean(items[j])
    ensures CommaList(Join(items, ',')) == items
  {
    JoinThenSplit(items, ',');
    CleanItemsOfClean(items);
  }

  /** Reading a list, writing it back and reading it again changes nothing. */
  lemma CommaListIdempotent(s: string)
    requires CommaList(s) != []
    ensures CommaList(Join(CommaList(s), ',')) == CommaList(s)
  {
    CommaListRoundTrip(CommaList(s));
  }

  /** Blank items are dropped: the list is empty exactly when every comma item is blank. */
  lemma {:induction false} CleanItemsEmpty(items: seq<string>)
    ensures CleanItems(items) == [] <==> forall j :: 0 <= j < |items| ==> Strip(items[j]) == []
  {
    if |items| > 0 {
      var init, last := items[..|items| - 1], items[|items| - 1];
      CleanItemsEmpty(init);
      assert CleanItems(items) == [] <==> CleanItems(init) == [] && Strip(last) == [];
      assert (forall j :: 0 <= j < |items| ==> Strip(items[j]) == [])
         <==> (forall j :: 0 <= j < |init| ==> Strip(init[j]) == []) && Strip(last) == [] by {
        assert forall j :: 0 <= j < |init| ==> init[j] == items[j];
      }
    }
  }

  /** The empty option, and one made of commas and white space only, give the empty list. */
  lemma CommaListBlank(s: string)
    requires forall k :: 0 <= k < |s| ==> s[k] == ',' || IsSpace(s[k])
    ensures CommaList(s) == []
  {
    var items := Split(s, ',');
    SplitPiecesFromText(s, ',');
    forall j | 0 <= j < |items| ensures Strip(items[j]) == [] {
      forall k | 0 <= k < |items[j]| ensures IsSpace(items[j][k]) {
        assert items[j][k] in s;
        assert items[j][k] != ',';
      }
      StripBlank(items[j]);
    }
    CleanItemsEmpty(items);
  }

  /** `--year`: no filter when the option is empty, otherwise what `parse_years` gives. */
  function YearOption(year: string): Result<seq<int>, string>
  {
    if year == "" then Ok([]) else YearList(year)
  }
}
