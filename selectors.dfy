// The sidebar's lists: every quarter in key order (app.py:121), the
// quarters shown in "last N quarters" mode (:131-132) and in "by fiscal
// year" mode (:135), and the regions in their fixed display order
// (:138-139).
module Selectors {
  import opened Wrappers
  import opened Text
  import opened Lists
  import opened QuarterKey
  import opened Loading

  // ---------------------------------------------------------------------
  // raw_quarters = sorted(df_raw['決算年度'].unique(), key=sort_quarter_key)
  // ---------------------------------------------------------------------

  /** Every label has a key; after loading, every label of the data has. */
  predicate AllKeyed(labels: seq<string>) {
    forall q :: q in labels ==> SortQuarterKey(q).Success?
  }

  /** The label column of the loaded rows. */
  function Periods(rows: seq<Row>): (r: seq<string>)
    ensures |r| == |rows| && forall i :: 0 <= i < |rows| ==> r[i] == rows[i].period
  {
    seq(|rows|, i requires 0 <= i < |rows| => rows[i].period)
  }

  /** The labels of loaded rows all have keys. */
  lemma LoadedPeriodsAreKeyed(rows: seq<Row>)
    requires forall row :: row in rows ==> WellKeyed(row)
    ensures AllKeyed(Periods(rows))
  {
    forall q | q in Periods(rows) ensures SortQuarterKey(q).Success? {
      var i :| 0 <= i < |rows| && Periods(rows)[i] == q;
      assert rows[i] in rows;
    }
  }

  /** A label decorated with its key, as `sorted(..., key=...)` does. */
  function KeyLe(a: (string, int), b: (string, int)): (le: bool) {
    a.1 <= b.1
  }

  lemma KeyLeIsTotalPreorder()
    ensures TotalPreorder(KeyLe)
  {
  }

  function Decorate(labels: seq<string>): (d: seq<(string, int)>)
    requires AllKeyed(labels)
    ensures |d| == |labels|
    ensures forall i :: 0 <= i < |d| ==> d[i] == (labels[i], SortQuarterKey(labels[i]).value)
  {
    seq(|labels|, i requires 0 <= i < |labels| => (labels[i], SortQuarterKey(labels[i]).value))
  }

  function Undecorate(d: seq<(string, int)>): (r: seq<string>)
    ensures |r| == |d| && forall i :: 0 <= i < |d| ==> r[i] == d[i].0
  {
    seq(|d|, i requires 0 <= i < |d| => d[i].0)
  }

  /** `raw_quarters`: each label of the column once, in key order (a stable
      sort, so labels that share a key keep their order of first
      appearance). */
  function SortedQuarters(labels: seq<string>): (r: seq<string>)
    requires AllKeyed(labels)
    ensures forall q :: q in r <==> q in labels
  {
    SortedQuartersMembers(labels);
    Undecorate(SortBy(Decorate(Unique(labels)), KeyLe))
  }

  /** Each decorated pair that the sort returns is a label of the column
      with its own key. */
  lemma SortedPairsAreKeyed(labels: seq<string>)
    requires AllKeyed(labels)
    ensures forall x :: x in SortBy(Decorate(Unique(labels)), KeyLe) ==>
              x.0 in labels && SortQuarterKey(x.0) == Success(x.1)
  {
    var u := Unique(labels);
    var d := Decorate(u);
    forall x | x in SortBy(d, KeyLe) ensures x.0 in labels && SortQuarterKey(x.0) == Success(x.1) {
      assert x in multiset(d);
      var i :| 0 <= i < |d| && d[i] == x;
      assert u[i] in u;
    }
  }

  /** The sorted labels are the labels of the column. */
  lemma SortedQuartersMembers(labels: seq<string>)
    requires AllKeyed(labels)
    ensures forall q :: q in Undecorate(SortBy(Decorate(Unique(labels)), KeyLe)) <==> q in labels
  {
    var u := Unique(labels);
    var d := Decorate(u);
    var sorted := SortBy(d, KeyLe);
    var r := Undecorate(sorted);
    SortedPairsAreKeyed(labels);
    forall q | q in r ensures q in labels {
      var i :| 0 <= i < |r| && r[i] == q;
      assert sorted[i] in sorted;
    }
    forall q | q in labels ensures q in r {
      var i :| 0 <= i < |u| && u[i] == q;
      assert d[i] in multiset(sorted);
      var k :| 0 <= k < |sorted| && sorted[k] == d[i];
      assert r[k] == q;
    }
  }

  /** `raw_quarters` holds each label once. */
  lemma SortedQuartersNoDup(labels: seq<string>)
    requires AllKeyed(labels)
    ensures NoDup(SortedQuarters(labels))
  {
    var u := Unique(labels);
    var d := Decorate(u);
    var sorted := SortBy(d, KeyLe);
    var r := SortedQuarters(labels);
    assert NoDup(d) by {
      forall i, j | 0 <= i < j < |d| ensures d[i] != d[j] {
        assert u[i] != u[j];
      }
    }
    NoDupPermutation(d, sorted);
    SortedPairsAreKeyed(labels);
    forall i, j | 0 <= i < j < |r| ensures r[i] != r[j] {
      assert sorted[i] in sorted && sorted[j] in sorted;
    }
  }

  /** `raw_quarters` is in ascending key order. */
  lemma SortedQuartersOrdered(labels: seq<string>)
    requires AllKeyed(labels)
    ensures forall i, j :: 0 <= i < j < |SortedQuarters(labels)| ==>
              SortQuarterKey(SortedQuarters(labels)[i]).value <= SortQuarterKey(SortedQuarters(labels)[j]).value
  {
    var d := Decorate(Unique(labels));
    var sorted := SortBy(d, KeyLe);
    var r := SortedQuarters(labels);
    SortedPairsAreKeyed(labels);
    KeyLeIsTotalPreorder();
    SortByIsSorted(d, KeyLe);
    forall i, j | 0 <= i < j < |r|
      ensures SortQuarterKey(r[i]).value <= SortQuarterKey(r[j]).value
    {
      assert sorted[i] in sorted && sorted[j] in sorted;
      assert KeyLe(sorted[i], sorted[j]);
    }
  }

  /** With quarter numbers 1 to 4, `raw_quarters` is in chronological
      order. */
  lemma SortedQuartersChronological(labels: seq<string>, i: nat, j: nat, p: Period, p': Period)
    requires AllKeyed(labels)
    requires i < j < |SortedQuarters(labels)|
    requires InQuarterRange(p) && InQuarterRange(p')
    requires SortedQuarters(labels)[i] == Label(p) && SortedQuarters(labels)[j] == Label(p')
    ensures Before(p, p')
  {
    var r := SortedQuarters(labels);
    SortedQuartersOrdered(labels);
    SortedQuartersNoDup(labels);
    assert r[i] != r[j];
    LabelKey(p);
    LabelKey(p');
    assert PeriodKey(p) <= PeriodKey(p');
    PeriodKeyOrder(p, p');
  }

  // ---------------------------------------------------------------------
  // fiscal_years = sorted(df_raw['年度'].unique(),
  //                       key=lambda x: int(x.replace('FY', '')))
  // ---------------------------------------------------------------------

  /** What the year key can raise: NaN, a float, has no `replace`, and
      `int()` refuses a text that is not a number. */
  datatype YearKeyError = AttributeError | YearValueError(text: string)

  /** `lambda x: int(x.replace('FY', ''))` on one cell of the year column;
      `None` is NaN. */
  function YearKey(y: Option<string>): (r: Result<int, YearKeyError>)
    ensures y.None? ==> r == Failure(AttributeError)
    ensures r.Success? ==> y.Some? && r.value >= 0
  {
    match y
    case None => Failure(AttributeError)
    case Some(t) =>
      match ParseInt(RemoveAll(t, "FY"))
      case None => Failure(YearValueError(RemoveAll(t, "FY")))
      case Some(v) => Success(v)
  }

  /** The key of a year's text is the year. */
  lemma YearKeyOfYearLabel(y: nat)
    ensures YearKey(Some(YearLabel(y))) == Success(y)
  {
    DigitsArePlain(Decimal(y));
    RemoveAllLeading("FY", Decimal(y));
    RemoveAllAbsent(Decimal(y), "FY");
    DecimalRoundTrip(y);
  }

  /** Every year the extraction finds has a key: only NaN makes the key
      raise. */
  lemma YearKeyOfExtracted(s: string)
    requires ExtractYear(s).Some?
    ensures YearKey(ExtractYear(s)).Success?
  {
    var t := ExtractYear(s).value;
    ExtractedYearShape(s);
    assert t == "FY" + t[2..];
    DigitsArePlain(t[2..]);
    RemoveAllLeading("FY", t[2..]);
    RemoveAllAbsent(t[2..], "FY");
  }

  /** The year column of the loaded rows. */
  function YearColumn(rows: seq<Row>): (r: seq<Option<string>>)
    ensures |r| == |rows| && forall i :: 0 <= i < |rows| ==> r[i] == rows[i].year
  {
    seq(|rows|, i requires 0 <= i < |rows| => rows[i].year)
  }

  /** `sorted(..., key=...)` first computes the key of every value in
      order, so the first value without a key raises. */
  function YearKeys(ys: seq<Option<string>>): (r: Result<seq<(string, int)>, YearKeyError>)
    ensures r.Success? <==> forall i :: 0 <= i < |ys| ==> YearKey(ys[i]).Success?
    ensures r.Success? ==> |r.value| == |ys|
    ensures r.Success? ==> forall i :: 0 <= i < |ys| ==> r.value[i] == (ys[i].value, YearKey(ys[i]).value)
    ensures r.Failure? ==> exists i :: 0 <= i < |ys| && YearKey(ys[i]) == Failure(r.error)
                                   && forall j :: 0 <= j < i ==> YearKey(ys[j]).Success?
    decreases |ys|
  {
    if ys == [] then Success([])
    else
      assert forall j :: 1 <= j < |ys| ==> ys[j] == ys[1..][j - 1];
      match YearKey(ys[0])
      case Failure(e) => Failure(e)
      case Success(k) =>
        match YearKeys(ys[1..])
        case Failure(e) => Failure(e)
        case Success(tail) => Success([(ys[0].value, k)] + tail)
  }

  /** When only NaN lacks a key, keying fails exactly on a NaN, and
      with `AttributeError`. */
  lemma YearKeysFailOnlyOnNaN(ys: seq<Option<string>>)
    requires forall i :: 0 <= i < |ys| && ys[i].Some? ==> YearKey(ys[i]).Success?
    ensures YearKeys(ys).Failure? <==> None in ys
    ensures YearKeys(ys).Failure? ==> YearKeys(ys).error == AttributeError
  {
    if None in ys {
      var i :| 0 <= i < |ys| && ys[i] == None;
      assert YearKey(ys[i]).Failure?;
    }
    if YearKeys(ys).Failure? {
      var i :| 0 <= i < |ys| && YearKey(ys[i]) == Failure(YearKeys(ys).error);
    }
  }

  /** `fiscal_years`: the years of the data, each once, by year number; it
      raises when a year has no key. */
  function FiscalYears(rows: seq<Row>): (r: Result<seq<string>, YearKeyError>)
    ensures r.Success? <==> forall y :: y in YearColumn(rows) ==> YearKey(y).Success?
    ensures r.Success? ==> |r.value| <= |rows|
  {
    var u := Unique(YearColumn(rows));
    match YearKeys(u)
    case Failure(e) => Failure(e)
    case Success(d) =>
      assert |multiset(SortBy(d, KeyLe))| == |multiset(d)|;
      Success(Undecorate(SortBy(d, KeyLe)))
  }

  /** Each pair the year sort returns is a year of the column with its
      own key. */
  lemma SortedYearPairs(ys: seq<Option<string>>)
    requires YearKeys(ys).Success?
    ensures forall x :: x in SortBy(YearKeys(ys).value, KeyLe) ==>
              Some(x.0) in ys && YearKey(Some(x.0)) == Success(x.1)
  {
    var d := YearKeys(ys).value;
    forall x | x in SortBy(d, KeyLe) ensures Some(x.0) in ys && YearKey(Some(x.0)) == Success(x.1) {
      assert x in multiset(d);
      var i :| 0 <= i < |d| && d[i] == x;
      assert ys[i] == Some(x.0);
    }
  }

  /** On loaded rows, the year list fails exactly when some label has no
      "FY" and four digits, and then with `AttributeError`. */
  lemma FiscalYearsFailsOnMissingYear(rows: seq<Row>)
    requires forall row :: row in rows ==> row.year == ExtractYear(row.period)
    ensures FiscalYears(rows).Failure? <==> exists row :: row in rows && row.year.None?
    ensures FiscalYears(rows).Failure? ==> FiscalYears(rows).error == AttributeError
  {
    var col := YearColumn(rows);
    var u := Unique(col);
    forall i | 0 <= i < |u| && u[i].Some? ensures YearKey(u[i]).Success? {
      assert u[i] in col;
      var j :| 0 <= j < |col| && col[j] == u[i];
      assert rows[j] in rows;
      YearKeyOfExtracted(rows[j].period);
    }
    YearKeysFailOnlyOnNaN(u);
    if exists row :: row in rows && row.year.None? {
      var row :| row in rows && row.year.None?;
      var i :| 0 <= i < |rows| && rows[i] == row;
      assert col[i] in u;
    }
    if None in u {
      assert None in col;
      var j :| 0 <= j < |col| && col[j] == None;
      assert rows[j] in rows;
    }
  }

  /** A row labelled without the "FY" prefix gets a key but no year, so
      the year list raises on it. */
  lemma MissingPrefixBreaksYearList(rows: seq<Row>, row: Row)
    requires forall x :: x in rows ==> x.year == ExtractYear(x.period)
    requires row in rows && row.period == "2023-1Q"
    ensures FiscalYears(rows) == Failure(AttributeError)
  {
    NoYearWithoutPrefix(row.period);
    FiscalYearsFailsOnMissingYear(rows);
  }

  /** The sorted years are exactly the years of a column. */
  lemma SortedYearsMembers(ys: seq<Option<string>>)
    requires YearKeys(ys).Success?
    ensures forall t :: t in Undecorate(SortBy(YearKeys(ys).value, KeyLe)) <==> Some(t) in ys
  {
    var d := YearKeys(ys).value;
    var sorted := SortBy(d, KeyLe);
    var r := Undecorate(sorted);
    SortedYearPairs(ys);
    forall t | t in r ensures Some(t) in ys {
      var i :| 0 <= i < |r| && r[i] == t;
      assert sorted[i] in sorted;
    }
    forall t | Some(t) in ys ensures t in r {
      var j :| 0 <= j < |ys| && ys[j] == Some(t);
      assert d[j] in multiset(sorted);
      var i :| 0 <= i < |sorted| && sorted[i] == d[j];
      assert r[i] == t;
    }
  }

  /** The sorted years ascend by year number. */
  lemma SortedYearsOrdered(ys: seq<Option<string>>)
    requires YearKeys(ys).Success?
    ensures forall i, j :: 0 <= i < j < |Undecorate(SortBy(YearKeys(ys).value, KeyLe))| ==>
              var r := Undecorate(SortBy(YearKeys(ys).value, KeyLe));
              && YearKey(Some(r[i])).Success? && YearKey(Some(r[j])).Success?
              && YearKey(Some(r[i])).value <= YearKey(Some(r[j])).value
  {
    var d := YearKeys(ys).value;
    var sorted := SortBy(d, KeyLe);
    var r := Undecorate(sorted);
    SortedYearPairs(ys);
    KeyLeIsTotalPreorder();
    SortByIsSorted(d, KeyLe);
    forall i, j | 0 <= i < j < |r|
      ensures && YearKey(Some(r[i])).Success? && YearKey(Some(r[j])).Success?
              && YearKey(Some(r[i])).value <= YearKey(Some(r[j])).value
    {
      assert sorted[i] in sorted && sorted[j] in sorted;
      assert KeyLe(sorted[i], sorted[j]);
    }
  }

  /** The sorted years of a column without repeats have no repeats. */
  lemma SortedYearsNoDup(ys: seq<Option<string>>)
    requires YearKeys(ys).Success? && NoDup(ys)
    ensures NoDup(Undecorate(SortBy(YearKeys(ys).value, KeyLe)))
  {
    var d := YearKeys(ys).value;
    var sorted := SortBy(d, KeyLe);
    var r := Undecorate(sorted);
    assert NoDup(d) by {
      forall i, j | 0 <= i < j < |d| ensures d[i] != d[j] {
        assert ys[i] != ys[j];
      }
    }
    NoDupPermutation(d, sorted);
    SortedYearPairs(ys);
    forall i, j | 0 <= i < j < |r| ensures r[i] != r[j] {
      assert sorted[i] in sorted && sorted[j] in sorted;
    }
  }

  /** A successful year list holds each year of the data once, in
      ascending order of the year number. */
  lemma FiscalYearsSorted(rows: seq<Row>)
    requires FiscalYears(rows).Success?
    ensures forall t :: t in FiscalYears(rows).value <==> exists row :: row in rows && row.year == Some(t)
    ensures NoDup(FiscalYears(rows).value)
    ensures forall i, j :: 0 <= i < j < |FiscalYears(rows).value| ==>
              && YearKey(Some(FiscalYears(rows).value[i])).Success?
              && YearKey(Some(FiscalYears(rows).value[j])).Success?
              && YearKey(Some(FiscalYears(rows).value[i])).value <= YearKey(Some(FiscalYears(rows).value[j])).value
  {
    var col := YearColumn(rows);
    var u := Unique(col);
    var r := FiscalYears(rows).value;
    assert r == Undecorate(SortBy(YearKeys(u).value, KeyLe));
    SortedYearsMembers(u);
    SortedYearsOrdered(u);
    SortedYearsNoDup(u);
    forall t ensures Some(t) in u <==> exists row :: row in rows && row.year == Some(t) {
      if Some(t) in u {
        var m :| 0 <= m < |col| && col[m] == Some(t);
        assert rows[m] in rows;
      }
      if exists row :: row in rows && row.year == Some(t) {
        var row :| row in rows && row.year == Some(t);
        var m :| 0 <= m < |rows| && rows[m] == row;
        assert col[m] in u;
      }
    }
  }

  // ---------------------------------------------------------------------
  // selected_quarters = raw_quarters[-n_quarters:]
  // ---------------------------------------------------------------------

  /** "直近N四半期" mode: the last `n` quarters, `n` chosen with a slider
      that runs from 4 to the number of quarters. */
  function LastQuarters(quarters: seq<string>, n: int): (r: seq<string>)
    requires 4 <= n
    ensures |r| == (if n <= |quarters| then n else |quarters|)
    ensures r == quarters[|quarters| - |r|..]
  {
    TakeLast(quarters, n)
  }

  /** The last `n` quarters are the latest ones: no quarter left out has a
      larger key than a quarter shown. */
  lemma LastQuartersAreLatest(labels: seq<string>, n: int)
    requires AllKeyed(labels) && 4 <= n
    ensures AllKeyed(LastQuarters(SortedQuarters(labels), n))
    ensures forall q, q' :: q in SortedQuarters(labels) && q !in LastQuarters(SortedQuarters(labels), n)
              && q' in LastQuarters(SortedQuarters(labels), n)
              ==> SortQuarterKey(q).value <= SortQuarterKey(q').value
  {
    var all := SortedQuarters(labels);
    SortedQuartersOrdered(labels);
    var le := (a: string, b: string) =>
      SortQuarterKey(a).Success? && SortQuarterKey(b).Success? &&
      SortQuarterKey(a).value <= SortQuarterKey(b).value;
    assert SortedBy(all, le);
    TakeLastKeepsGreatest(all, n, le);
  }

  /** An example at the slider's minimum: of five quarters, the last four. */
  lemma LastFourOfFive()
    ensures LastQuarters(["FY2022-1Q", "FY2022-2Q", "FY2022-3Q", "FY2022-4Q", "FY2023-1Q"], 4)
         == ["FY2022-2Q", "FY2022-3Q", "FY2022-4Q", "FY2023-1Q"]
  {
  }

  // ---------------------------------------------------------------------
  // [q for q in raw_quarters if any(q.startswith(y) for y in selected_years)]
  // ---------------------------------------------------------------------

  /** "年度指定" mode: the quarters that start with one of the selected
      fiscal-year texts, in their order. */
  function QuartersOfYears(quarters: seq<string>, years: seq<string>): (r: seq<string>)
    ensures forall q :: q in r <==> q in quarters && exists y :: y in years && y <= q
    ensures IsSubseq(r, quarters)
    ensures NoDup(quarters) ==> NoDup(r)
    ensures years == [] ==> r == []
    ensures forall q :: multiset(r)[q] == if exists y :: y in years && y <= q then multiset(quarters)[q] else 0
  {
    var r := Filter(quarters, (q: string) => exists y :: y in years && y <= q);
    assert r != [] ==> r[0] in r;
    r
  }

  /** Selecting by year keeps the key order of `raw_quarters`. */
  lemma QuartersOfYearsInKeyOrder(labels: seq<string>, years: seq<string>)
    requires AllKeyed(labels)
    ensures forall i, j :: 0 <= i < j < |QuartersOfYears(SortedQuarters(labels), years)| ==>
              var r := QuartersOfYears(SortedQuarters(labels), years);
              SortQuarterKey(r[i]).Success? && SortQuarterKey(r[j]).Success? &&
              SortQuarterKey(r[i]).value <= SortQuarterKey(r[j]).value
  {
    var all := SortedQuarters(labels);
    var r := QuartersOfYears(all, years);
    SortedQuartersOrdered(labels);
    var le := (a: string, b: string) =>
      SortQuarterKey(a).Success? && SortQuarterKey(b).Success? &&
      SortQuarterKey(a).value <= SortQuarterKey(b).value;
    assert SortedBy(all, le);
    SubseqSorted(r, all, le);
  }

  /** For labels with four-digit years, selecting the texts of some years
      picks exactly the quarters of those years. */
  lemma QuartersOfYearsByPeriod(quarters: seq<string>, ys: seq<nat>, p: Period)
    requires 1000 <= p.year <= 9999
    requires forall y :: y in ys ==> 1000 <= y <= 9999
    ensures Label(p) in QuartersOfYears(quarters, YearLabels(ys))
        <==> Label(p) in quarters && p.year in ys
  {
    var years := YearLabels(ys);
    if Label(p) in quarters && p.year in ys {
      var k :| 0 <= k < |ys| && ys[k] == p.year;
      YearPrefix(p, p.year);
      assert years[k] in years && years[k] <= Label(p);
    }
    if Label(p) in QuartersOfYears(quarters, years) {
      var y :| y in years && y <= Label(p);
      var k :| 0 <= k < |years| && years[k] == y;
      assert ys[k] in ys;
      YearPrefix(p, ys[k]);
    }
  }

  /** The fiscal-year texts of some years. */
  function YearLabels(ys: seq<nat>): (r: seq<string>)
    ensures |r| == |ys| && forall k :: 0 <= k < |ys| ==> r[k] == YearLabel(ys[k])
  {
    seq(|ys|, k requires 0 <= k < |ys| => YearLabel(ys[k]))
  }

  // ---------------------------------------------------------------------
  // region_list = [r for r in region_order if r in df_raw['地域'].unique()]
  // ---------------------------------------------------------------------

  /** The regions in display order: Japan, China, ASEAN, other. */
  const RegionOrder: seq<string> := ["日本", "中国", "アセアン", "その他"]

  /** The region column of the loaded rows. */
  function Regions(rows: seq<Row>): (r: seq<string>)
    ensures |r| == |rows| && forall i :: 0 <= i < |rows| ==> r[i] == rows[i].region
  {
    seq(|rows|, i requires 0 <= i < |rows| => rows[i].region)
  }

  /** The regions of the display order that occur in the data, in display
      order, each once; regions outside the display order never appear. */
  function RegionList(rows: seq<Row>): (r: seq<string>)
    ensures forall x :: x in r <==> x in RegionOrder && exists row :: row in rows && row.region == x
    ensures IsSubseq(r, RegionOrder)
    ensures NoDup(r)
  {
    var present := Unique(Regions(rows));
    assert forall x :: x in present <==> exists row :: row in rows && row.region == x by {
      forall x ensures x in present <==> exists row :: row in rows && row.region == x {
        if x in present {
          var i :| 0 <= i < |rows| && Regions(rows)[i] == x;
          assert rows[i] in rows;
        }
        if exists row :: row in rows && row.region == x {
          var row :| row in rows && row.region == x;
          var i :| 0 <= i < |rows| && rows[i] == row;
          assert Regions(rows)[i] == x;
        }
      }
    }
    assert NoDup(RegionOrder);
    Filter(RegionOrder, (x: string) => x in present)
  }
}
