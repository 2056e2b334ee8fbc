/**
 * `parse_years` (mirrulations_downloader.py): the `--year` option is a comma
 * list whose items are either one year or an inclusive range `a-b`. The items
 * are expanded in order; the first item that is not of that form raises, and
 * the error here carries that item.
 */
module Years {
  import opened Wrappers
  import opened Text

  /** `range(lo, hi)`: lo, lo + 1, ..., hi - 1 in ascending order; empty when hi <= lo. */
  function Range(lo: int, hi: int): (r: seq<int>)
    ensures |r| == if lo < hi then hi - lo else 0
    ensures forall k :: 0 <= k < |r| ==> r[k] == lo + k
    decreases hi - lo
  {
    if lo < hi then [lo] + Range(lo + 1, hi) else []
  }

  /**
   * One comma item: with a hyphen it must be exactly two integers around one
   * hyphen and gives the inclusive range between them; without one it must
   * be an integer and gives that year alone.
   */
  function YearItem(item: string): Result<seq<int>, string>
  {
    if '-' in item then
      var bounds := Split(item, '-');
      if |bounds| != 2 then Err(item)
      else
        var first, last := ParseInt(bounds[0]), ParseInt(bounds[1]);
        if first.Some? && last.Some? then Ok(Range(first.value, last.value + 1)) else Err(item)
    else
      match ParseInt(item)
      case Some(year) => Ok([year])
      case None => Err(item)
  }

  /** Two results in sequence: the first error wins, otherwise the year lists are concatenated. */
  function Concat(a: Result<seq<int>, string>, b: Result<seq<int>, string>): Result<seq<int>, string>
  {
    if a.Err? then a else if b.Err? then b else Ok(a.value + b.value)
  }

  /** Item results taken left to right: the first error, or all the years in item order. */
  function ConcatAll(rs: seq<Result<seq<int>, string>>): Result<seq<int>, string>
  {
    if |rs| == 0 then Ok([]) else Concat(ConcatAll(rs[..|rs| - 1]), rs[|rs| - 1])
  }

  /** The result of each comma item, in order. */
  function ItemResults(items: seq<string>): (rs: seq<Result<seq<int>, string>>)
    ensures |rs| == |items|
    ensures forall j :: 0 <= j < |items| ==> rs[j] == YearItem(items[j])
  {
    seq(|items|, j requires 0 <= j < |items| => YearItem(items[j]))
  }

  /** What `parse_years(text)` returns, or the comma item on which it raises. */
  function YearList(text: string): Result<seq<int>, string>
  {
    ConcatAll(ItemResults(Split(text, ',')))
  }

  /** `parse_years`: one pass over the comma items, extending the year list. */
  method ParseYears(text: string) returns (r: Result<seq<int>, string>)
    ensures r == YearList(text)
  {
    var items := Split(text, ',');
    ghost var results := ItemResults(items);
    var years: seq<int> := [];
    for i := 0 to |items|
      invariant ConcatAll(results[..i]) == Ok(years)
    {
      var item := items[i];
      assert results[..i + 1][..i] == results[..i];
      if '-' in item {
        var bounds := Split(item, '-');
        if |bounds| != 2 {
          ConcatAllStopAt(results, i);
          return Err(item);
        }
        var first, last := ParseInt(bounds[0]), ParseInt(bounds[1]);
        if first.None? || last.None? {
          ConcatAllStopAt(results, i);
          return Err(item);
        }
        years := years + Range(first.value, last.value + 1);
      } else {
        var year := ParseInt(item);
        if year.None? {
          ConcatAllStopAt(results, i);
          return Err(item);
        }
        years := years + [year.value];
      }
    }
    assert results[..|items|] == results;
    r := Ok(years);
  }

  /** Taking two runs of results one after the other is taking their concatenation. */
  lemma {:induction false} ConcatAllAppend(p: seq<Result<seq<int>, string>>, q: seq<Result<seq<int>, string>>)
    ensures ConcatAll(p + q) == Concat(ConcatAll(p), ConcatAll(q))
  {
    if |q| == 0 {
      assert p + q == p;
      if ConcatAll(p).Ok? {
        assert ConcatAll(p).value + [] == ConcatAll(p).value;
      }
    } else {
      var q' := q[..|q| - 1];
      assert (p + q)[..|p + q| - 1] == p + q';
      assert (p + q)[|p + q| - 1] == q[|q| - 1];
      ConcatAllAppend(p, q');
      var x, y, z := ConcatAll(p), ConcatAll(q'), q[|q| - 1];
      if x.Ok? && y.Ok? && z.Ok? {
        assert x.value + y.value + z.value == x.value + (y.value + z.value);
      }
    }
  }

  /** `parse_years` returns a list exactly when every comma item is one year or one range. */
  lemma YearListOk(text: string)
    ensures YearList(text).Ok? <==> forall j :: 0 <= j < |Split(text, ',')| ==> YearItem(Split(text, ',')[j]).Ok?
  {
    ConcatAllOk(ItemResults(Split(text, ',')));
  }

  /** Once an item fails after successful ones, that item's error is the result. */
  lemma ConcatAllStopAt(rs: seq<Result<seq<int>, string>>, i: nat)
    requires i < |rs|
    requires ConcatAll(rs[..i]).Ok?
    requires rs[i].Err?
    ensures ConcatAll(rs) == rs[i]
  {
    assert rs[..i + 1][..i] == rs[..i];
    ConcatAllAppend(rs[..i + 1], rs[i + 1..]);
    assert rs[..i + 1] + rs[i + 1..] == rs;
  }

  /** The expansion succeeds exactly when every item succeeds. */
  lemma {:induction false} ConcatAllOk(rs: seq<Result<seq<int>, string>>)
    ensures ConcatAll(rs).Ok? <==> forall j :: 0 <= j < |rs| ==> rs[j].Ok?
  {
    if |rs| > 0 {
      var init := rs[..|rs| - 1];
      ConcatAllOk(init);
      assert forall j :: 0 <= j < |init| ==> init[j] == rs[j];
    }
  }

  /** The result of `a + b` items is the result of the `a` items followed by that of the `b` items. */
  lemma ItemResultsAppend(a: seq<string>, b: seq<string>)
    ensures ItemResults(a + b) == ItemResults(a) + ItemResults(b)
  {
    var lhs, rhs := ItemResults(a + b), ItemResults(a) + ItemResults(b);
    assert |lhs| == |rhs|;
    forall j | 0 <= j < |a + b| ensures lhs[j] == rhs[j] {
      if j < |a| {
        assert (a + b)[j] == a[j];
        assert rhs[j] == ItemResults(a)[j];
      } else {
        assert (a + b)[j] == b[j - |a|];
        assert rhs[j] == ItemResults(b)[j - |a|];
      }
    }
  }

  /** The years of `s + "," + t` are those of `s` followed by those of `t`. */
  lemma YearListAppend(s: string, t: string)
    ensures YearList(s + [','] + t) == Concat(YearList(s), YearList(t))
  {
    SplitAround(s, t, ',');
    ItemResultsAppend(Split(s, ','), Split(t, ','));
    ConcatAllAppend(ItemResults(Split(s, ',')), ItemResults(Split(t, ',')));
  }

  /** Text without a comma is one item. */
  lemma YearListOneItem(s: string)
    requires ',' !in s
    ensures YearList(s) == YearItem(s)
  {
    SplitWithoutSeparator(s, ',');
    var rs := ItemResults([s]);
    assert YearList(s) == ConcatAll(rs);
    assert rs[..0] == [] && rs[0] == YearItem(s);
    assert ConcatAll(rs) == Concat(Ok([]), YearItem(s));
    if YearItem(s).Ok? {
      assert [] + YearItem(s).value == YearItem(s).value;
    }
  }

  /** Decimal digits hold neither a comma nor a hyphen. */
  lemma DigitsHaveNoSeparator(s: string)
    requires AllDigits(s)
    ensures ',' !in s && '-' !in s
  {
    forall k | 0 <= k < |s| ensures s[k] != ',' && s[k] != '-' {
      assert IsDigit(s[k]);
    }
  }

  /** A single year gives a one-element list. */
  lemma YearListSingle(year: nat)
    ensures YearList(NatToString(year)) == Ok([year])
  {
    var s := NatToString(year);
    DigitsHaveNoSeparator(s);
    ParseIntOfIntToString(year);
    assert IntToString(year) == s;
    YearListOneItem(s);
  }

  /** `a-b` gives a, a + 1, ..., b: ascending, and empty when b < a. */
  lemma YearListRange(first: nat, last: nat)
    ensures YearList(NatToString(first) + "-" + NatToString(last)) == Ok(Range(first, last + 1))
  {
    var a, b := NatToString(first), NatToString(last);
    NoCommaAroundHyphen(a, b);
    RangeItem(first, last);
    YearListOneItem(a + "-" + b);
  }

  lemma NoCommaAroundHyphen(a: string, b: string)
    requires AllDigits(a) && AllDigits(b)
    ensures ',' !in a + "-" + b
  {
    DigitsHaveNoSeparator(a);
    DigitsHaveNoSeparator(b);
    var s := a + "-" + b;
    forall k | 0 <= k < |s| ensures s[k] != ',' {
      if k < |a| { assert s[k] == a[k]; }
      else if k > |a| { assert s[k] == b[k - |a| - 1]; }
    }
  }

  lemma RangeItem(first: nat, last: nat)
    ensures YearItem(NatToString(first) + "-" + NatToString(last)) == Ok(Range(first, last + 1))
  {
    var a, b := NatToString(first), NatToString(last);
    SplitAtHyphen(a, b);
    assert (a + "-" + b)[|a|] == '-';
    ParseIntOfIntToString(first);
    ParseIntOfIntToString(last);
    TwoBoundsItem(a + "-" + b, a, b);
  }

  /** An item with a hyphen that splits into two integers is the inclusive range between them. */
  lemma TwoBoundsItem(item: string, a: string, b: string)
    requires '-' in item && Split(item, '-') == [a, b] && ParseInt(a).Some? && ParseInt(b).Some?
    ensures YearItem(item) == Ok(Range(ParseInt(a).value, ParseInt(b).value + 1))
  {
  }

  lemma SplitAtHyphen(a: string, b: string)
    requires AllDigits(a) && AllDigits(b)
    ensures Split(a + "-" + b, '-') == [a, b]
  {
    DigitsHaveNoSeparator(a);
    DigitsHaveNoSeparator(b);
    SplitWithoutSeparator(a, '-');
    SplitWithoutSeparator(b, '-');
    SplitAround(a, b, '-');
  }

  /** An item with two or more hyphens always raises. */
  lemma YearItemTooManyHyphens(item: string)
    requires Count(item, '-') >= 2
    ensures YearItem(item) == Err(item)
  {
    CountedIsPresent(item, '-');
  }

  lemma {:induction false} CountedIsPresent(s: string, c: char)
    requires Count(s, c) > 0
    ensures c in s
  {
    if s[0] != c {
      CountedIsPresent(s[1..], c);
      assert s == [s[0]] + s[1..];
    }
  }

  /** An item that parses never yields a negative year: a minus sign always reads as a range. */
  lemma YearItemNonNegative(item: string)
    requires YearItem(item).Ok?
    ensures forall k :: 0 <= k < |YearItem(item).value| ==> YearItem(item).value[k] >= 0
  {
    if '-' in item {
      ParseIntWithoutMinus(Split(item, '-')[0]);
    } else {
      ParseIntWithoutMinus(item);
    }
  }

  lemma {:induction false} ConcatAllNonNegative(rs: seq<Result<seq<int>, string>>)
    requires ConcatAll(rs).Ok?
    requires forall j :: 0 <= j < |rs| && rs[j].Ok? ==> forall k :: 0 <= k < |rs[j].value| ==> rs[j].value[k] >= 0
    ensures forall k :: 0 <= k < |ConcatAll(rs).value| ==> ConcatAll(rs).value[k] >= 0
  {
    if |rs| > 0 {
      ConcatAllNonNegative(rs[..|rs| - 1]);
    }
  }

  /** `parse_years` never returns a negative year. */
  lemma YearListNonNegative(text: string)
    requires YearList(text).Ok?
    ensures forall k :: 0 <= k < |YearList(text).value| ==> YearList(text).value[k] >= 0
  {
    var items := Split(text, ',');
    forall j | 0 <= j < |items| && YearItem(items[j]).Ok?
      ensures forall k :: 0 <= k < |YearItem(items[j]).value| ==> YearItem(items[j]).value[k] >= 0
    {
      YearItemNonNegative(items[j]);
    }
    ConcatAllNonNegative(ItemResults(items));
  }
}
