// The year-over-year columns of the dashboard (前年同期比 for revenue,
// 営業利益前年同期比 for profit): per region, the rows sorted by key, and
// each row compared with the row four places earlier (`shift(4)`). The
// ratio itself, `round((a / b - 1) * 100, 1)` on floats, is the parameter
// `compare`; what is modelled is which two rows each cell compares.
module YearOverYear {
  import opened Wrappers
  import opened Text
  import opened Lists
  import opened QuarterKey
  import opened Loading

  /** The order of `sort_values('四半期数値')`: by key alone. */
  predicate KeyOrder(a: Row, b: Row) {
    a.key <= b.key
  }

  lemma KeyOrderIsTotalPreorder()
    ensures TotalPreorder(KeyOrder)
  {
  }

  /** The condition `df_raw['地域'] == region`. */
  function InRegion(region: string): (p: Row -> bool) {
    (x: Row) => x.region == region
  }

  /** `df_raw[df_raw['地域'] == region].sort_values('四半期数値')`: the
      rows of one region, each once as often as in the data, by key. */
  function RegionSeries(rows: seq<Row>, region: string): (s: seq<Row>)
    ensures forall x :: x in s <==> x in rows && x.region == region
    ensures multiset(s) == multiset(Filter(rows, InRegion(region)))
    ensures SortedBy(s, KeyOrder)
  {
    var f := Filter(rows, InRegion(region));
    KeyOrderIsTotalPreorder();
    SortByIsSorted(f, KeyOrder);
    var s := SortBy(f, KeyOrder);
    assert forall x :: x in s <==> x in multiset(f);
    s
  }

  /** The loaded rows are already in (region, key) order, so the rows of
      one region come out of the filter in key order and the sort leaves
      them where they are. This relies on the model's stable sort keeping
      tied rows in input order; pandas' default one-column sort is not
      stable, so the two agree only when keys within a region are
      distinct. */
  lemma LoadedSeriesNeedsNoResort(rows: seq<Row>, region: string)
    requires SortedBy(rows, RowLe)
    ensures RegionSeries(rows, region) == Filter(rows, InRegion(region))
  {
    var f := Filter(rows, InRegion(region));
    SubseqSorted(f, rows, RowLe);
    LessIrreflexive(region);
    forall i, j | 0 <= i < j < |f| ensures KeyOrder(f[i], f[j]) {
      assert f[i] in f && f[j] in f;
      assert RowLe(f[i], f[j]);
    }
    SortBySortedIsIdentity(f, KeyOrder);
  }

  // ---------------------------------------------------------------------
  // reg_data['前年同期比'] = round((v / v.shift(4) - 1) * 100, 1)
  // ---------------------------------------------------------------------

  /** A row of a region's series with its year-over-year cell; `None` is
      the NaN that `shift(4)` leaves in the first four places. */
  datatype YoyRow<V> = YoyRow(row: Row, yoy: Option<V>)

  /** The series with its year-over-year column: the cell at place `i`
      compares the row at `i` with the row at `i - 4`. */
  function YoyColumn<V>(s: seq<Row>, compare: (Row, Row) -> V): (r: seq<YoyRow<V>>)
    ensures |r| == |s|
    ensures forall i :: 0 <= i < |s| ==> r[i].row == s[i]
    ensures forall i :: 0 <= i < |s| ==> (r[i].yoy.None? <==> i < 4)
  {
    seq(|s|, i requires 0 <= i < |s| =>
      YoyRow(s[i], if i >= 4 then Some(compare(s[i], s[i - 4])) else None))
  }

  /** A cell depends on the rows at its own place and four places earlier
      and on nothing else in the series. */
  lemma YoyCellIsLocal<V>(s: seq<Row>, t: seq<Row>, i: nat, compare: (Row, Row) -> V)
    requires i < |s| && i < |t| && s[i] == t[i]
    requires i >= 4 ==> s[i - 4] == t[i - 4]
    ensures YoyColumn(s, compare)[i] == YoyColumn(t, compare)[i]
  {
  }

  /** The period after `p` in the fiscal calendar. */
  function NextPeriod(p: Period): (q: Period)
    requires InQuarterRange(p)
    ensures InQuarterRange(q) && Before(p, q)
  {
    if p.quarter == 4 then Period(p.year + 1, 1) else Period(p.year, p.quarter + 1)
  }

  /** A run of periods with quarters 1 to 4 and without a gap. */
  ghost predicate Consecutive(ps: seq<Period>) {
    && (forall i :: 0 <= i < |ps| ==> InQuarterRange(ps[i]))
    && (forall i, j :: 0 <= i < j < |ps| && j == i + 1 ==> ps[j] == NextPeriod(ps[i]))
  }

  /** Four steps of the calendar are one year. */
  lemma FourQuartersMakeAYear(p: Period)
    requires InQuarterRange(p)
    ensures NextPeriod(NextPeriod(NextPeriod(NextPeriod(p)))) == Period(p.year + 1, p.quarter)
  {
  }

  /** In a run without gaps, the period four places back is the same
      quarter of the previous fiscal year. */
  lemma FourBackIsPriorYear(ps: seq<Period>, i: nat)
    requires Consecutive(ps) && 4 <= i < |ps|
    ensures ps[i - 4].year + 1 == ps[i].year && ps[i - 4].quarter == ps[i].quarter
  {
    assert ps[i - 3] == NextPeriod(ps[i - 4]);
    assert ps[i - 2] == NextPeriod(ps[i - 3]);
    assert ps[i - 1] == NextPeriod(ps[i - 2]);
    assert ps[i] == NextPeriod(ps[i - 1]);
    FourQuartersMakeAYear(ps[i - 4]);
  }

  /** When a region's series covers its quarters without a gap, every cell
      from the fifth on compares a quarter with the same quarter of the
      previous fiscal year, and the first four have no value. */
  lemma YoyComparesPriorYear<V>(s: seq<Row>, ps: seq<Period>, compare: (Row, Row) -> V)
    requires |s| == |ps| && Consecutive(ps)
    requires forall i :: 0 <= i < |s| ==> s[i].period == Label(ps[i])
    ensures forall i :: 4 <= i < |s| ==>
              && YoyColumn(s, compare)[i].yoy == Some(compare(s[i], s[i - 4]))
              && s[i - 4].period == Label(Period(ps[i - 4].year, ps[i].quarter))
              && ps[i - 4].year + 1 == ps[i].year
  {
    var col := YoyColumn(s, compare);
    forall i | 4 <= i < |s|
      ensures col[i].yoy == Some(compare(s[i], s[i - 4]))
      ensures s[i - 4].period == Label(Period(ps[i - 4].year, ps[i].quarter))
      ensures ps[i - 4].year + 1 == ps[i].year
    {
      FourBackIsPriorYear(ps, i);
      assert ps[i - 4] == Period(ps[i - 4].year, ps[i].quarter);
    }
  }

  /** The row a load makes of sheet row `a` relabelled with period `p`. */
  function LoadedAt(a: RawRow, p: Period): (row: Row)
    ensures row.period == Label(p) && row.key == PeriodKey(p)
  {
    Annotate(a.(period := Label(p)), PeriodKey(p))
  }

  /** A region's series from quarter 1 of year `y` to quarter 2 of `y + 1`
      with quarter 3 of `y` missing. */
  function GapSeries(a: RawRow, y: nat): (s: seq<Row>)
    ensures |s| == 5
  {
    [ LoadedAt(a, Period(y, 1)), LoadedAt(a, Period(y, 2)), LoadedAt(a, Period(y, 4)),
      LoadedAt(a, Period(y + 1, 1)), LoadedAt(a, Period(y + 1, 2)) ]
  }

  /** A quarterly sheet row relabelled with a period loads as a
      well-keyed row. */
  lemma LoadedAtWellKeyed(a: RawRow, p: Period)
    requires a.kind in QuarterKinds
    ensures WellKeyed(LoadedAt(a, p))
  {
    LabelKey(p);
  }

  /** Every row of the gap series is one a load can produce. */
  lemma GapSeriesWellKeyed(a: RawRow, y: nat)
    requires a.kind in QuarterKinds
    ensures forall r :: r in GapSeries(a, y) ==> WellKeyed(r)
  {
    LoadedAtWellKeyed(a, Period(y, 1));
    LoadedAtWellKeyed(a, Period(y, 2));
    LoadedAtWellKeyed(a, Period(y, 4));
    LoadedAtWellKeyed(a, Period(y + 1, 1));
    LoadedAtWellKeyed(a, Period(y + 1, 2));
  }

  /** With a quarter missing, `shift(4)` still looks four rows back: quarter
      2 of `y + 1` is compared with quarter 1 of `y`, not with quarter 2 of
      `y`, because quarter 3 of `y` is absent. */
  lemma MissingQuarterShiftsComparison<V>(compare: (Row, Row) -> V, a: RawRow, y: nat)
    ensures var s := GapSeries(a, y);
            && YoyColumn(s, compare)[4].yoy == Some(compare(s[4], s[0]))
            && s[4].period == Label(Period(y + 1, 2)) && s[0].period == Label(Period(y, 1))
            && s[0].key != PeriodKey(Period(y, 2))
  {
  }

  // ---------------------------------------------------------------------
  // for region in region_list: ... yoy_df = pd.concat([yoy_df, reg_data])
  // ---------------------------------------------------------------------

  /** One region's block: its series with the year-over-year column. */
  function YoyBlock<V>(rows: seq<Row>, region: string, compare: (Row, Row) -> V): (b: seq<YoyRow<V>>)
    ensures |b| == |RegionSeries(rows, region)|
    ensures forall i :: 0 <= i < |b| ==> b[i].row == RegionSeries(rows, region)[i]
  {
    YoyColumn(RegionSeries(rows, region), compare)
  }

  /** A block holds the rows of its region, every one of them. */
  lemma YoyBlockRows<V>(rows: seq<Row>, region: string, compare: (Row, Row) -> V)
    ensures forall e :: e in YoyBlock(rows, region, compare) ==> e.row in rows && e.row.region == region
    ensures forall x :: x in rows && x.region == region ==>
              exists e :: e in YoyBlock(rows, region, compare) && e.row == x
  {
    var s := RegionSeries(rows, region);
    var b := YoyBlock(rows, region, compare);
    forall e | e in b ensures e.row in rows && e.row.region == region {
      var j :| 0 <= j < |b| && b[j] == e;
      assert s[j] in s;
    }
    forall x | x in rows && x.region == region ensures exists e :: e in b && e.row == x {
      var j :| 0 <= j < |s| && s[j] == x;
      assert b[j] in b;
    }
  }

  /** The table after the loop has handled `regions`: the blocks of the
      regions, in their order. */
  function YoyTableOf<V>(rows: seq<Row>, regions: seq<string>, compare: (Row, Row) -> V): (t: seq<YoyRow<V>>)
  {
    ConcatMap(regions, r => YoyBlock(rows, r, compare))
  }

  /** The table is made of the blocks of the listed regions: an entry is
      in the table exactly when it is in the block of a listed region. */
  lemma YoyTableBlocks<V>(rows: seq<Row>, regions: seq<string>, compare: (Row, Row) -> V)
    ensures forall e :: e in YoyTableOf(rows, regions, compare) ==>
              exists r :: r in regions && e in YoyBlock(rows, r, compare)
    ensures forall r, e :: r in regions && e in YoyBlock(rows, r, compare) ==>
              e in YoyTableOf(rows, regions, compare)
  {
    var block := r => YoyBlock(rows, r, compare);
    var table := YoyTableOf(rows, regions, compare);
    assert table == ConcatMap(regions, block);
    ConcatMapMembers(regions, block);
    forall e | e in table ensures exists r :: r in regions && e in YoyBlock(rows, r, compare) {
      var r :| r in regions && e in block(r);
      assert block(r) == YoyBlock(rows, r, compare);
    }
    forall r, e | r in regions && e in YoyBlock(rows, r, compare) ensures e in table {
      assert e in block(r);
    }
  }

  /** The table holds the rows of the listed regions, each in an entry of
      its own region's block, and no other rows. */
  lemma YoyTableRows<V>(rows: seq<Row>, regions: seq<string>, compare: (Row, Row) -> V)
    ensures forall e :: e in YoyTableOf(rows, regions, compare) ==>
              e.row in rows && e.row.region in regions && e in YoyBlock(rows, e.row.region, compare)
    ensures forall x :: x in rows && x.region in regions ==>
              exists e :: e in YoyTableOf(rows, regions, compare) && e.row == x
  {
    var table := YoyTableOf(rows, regions, compare);
    YoyTableBlocks(rows, regions, compare);
    forall e | e in table
      ensures e.row in rows && e.row.region in regions && e in YoyBlock(rows, e.row.region, compare)
    {
      var r :| r in regions && e in YoyBlock(rows, r, compare);
      YoyBlockRows(rows, r, compare);
    }
    forall x | x in rows && x.region in regions ensures exists e :: e in table && e.row == x {
      YoyBlockRows(rows, x.region, compare);
      var e :| e in YoyBlock(rows, x.region, compare) && e.row == x;
      assert e in table;
    }
  }

  /** The loops at the year-over-year tab: one block per region of the
      list, appended in list order. */
  method YoyTable<V>(rows: seq<Row>, regions: seq<string>, compare: (Row, Row) -> V)
    returns (table: seq<YoyRow<V>>)
    ensures table == YoyTableOf(rows, regions, compare)
  {
    table := [];
    var k := 0;
    while k < |regions|
      invariant 0 <= k <= |regions|
      invariant table == YoyTableOf(rows, regions[..k], compare)
    {
      var series := RegionSeries(rows, regions[k]);
      assert regions[..k + 1][..k] == regions[..k];
      table := table + YoyColumn(series, compare);
      k := k + 1;
    }
    assert regions[..k] == regions;
  }

  /** `yoy_df[yoy_df['決算年度'].isin(selected_quarters)]`: the rows of the
      shown quarters, each with the cell computed on the whole series. */
  function YoyShown<V(==,!new)>(table: seq<YoyRow<V>>, selected: seq<string>): (r: seq<YoyRow<V>>)
    ensures forall e :: e in r <==> e in table && e.row.period in selected
    ensures IsSubseq(r, table)
    ensures forall e :: multiset(r)[e] == if e.row.period in selected then multiset(table)[e] else 0
  {
    Filter(table, (e: YoyRow<V>) => e.row.period in selected)
  }
}
