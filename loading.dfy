// `load_region_data` after the spreadsheet has been read: keep the
// quarterly rows, add the sort key column 四半期数値, sort by region and
// key, and add the fiscal-year column 年度.
module Loading {
  import opened Wrappers
  import opened Text
  import opened Lists
  import opened QuarterKey

  /** One spreadsheet row as read: 地域 (region), 決算年度 (the quarter
      label, e.g. "FY2023-1Q"), 決算種別 (the kind of closing, "Q1" to "Q4"
      for quarters) and the figures, which are carried along untouched. */
  datatype RawRow = RawRow(region: string, period: string, kind: string, revenue: real, profit: real)

  /** A loaded row: the columns read, plus 四半期数値 (`key`) and 年度
      (`year`, `None` where the extraction finds nothing, i.e. NaN). */
  datatype Row = Row(region: string, period: string, kind: string, revenue: real, profit: real,
                     key: int, year: Option<string>)

  /** The kinds of closing the dashboard keeps. */
  const QuarterKinds: seq<string> := ["Q1", "Q2", "Q3", "Q4"]

  /** `df[df['決算種別'].isin(['Q1', 'Q2', 'Q3', 'Q4'])]`: the quarterly rows,
      in their order in the file. */
  function KeepQuarterRows(rows: seq<RawRow>): (r: seq<RawRow>)
    ensures forall x :: x in r <==> x in rows && x.kind in QuarterKinds
    ensures IsSubseq(r, rows)
    ensures forall x :: multiset(r)[x] == if x.kind in QuarterKinds then multiset(rows)[x] else 0
  {
    Filter(rows, (x: RawRow) => x.kind in QuarterKinds)
  }

  /** A raw row with its two derived columns. */
  function Annotate(x: RawRow, key: int): (row: Row)
    ensures Raw(row) == x && row.key == key
  {
    Row(x.region, x.period, x.kind, x.revenue, x.profit, key, ExtractYear(x.period))
  }

  /** The columns of a loaded row that came from the file. */
  function Raw(row: Row): (x: RawRow) {
    RawRow(row.region, row.period, row.kind, row.revenue, row.profit)
  }

  /** What every loaded row satisfies: a quarterly kind, the key of its
      label and the fiscal year of its label. */
  predicate WellKeyed(row: Row) {
    && row.kind in QuarterKinds
    && SortQuarterKey(row.period) == Success(row.key)
    && row.year == ExtractYear(row.period)
  }

  /** `df['決算年度'].apply(key)` together with the year column: row by
      row from the first, so the first label without a key raises. It
      succeeds exactly when every label has a key, with one row per row.
      The dashboard applies `sort_quarter_key`; the keying is stated for
      any key so that its proofs do not depend on how the key is found. */
  function ApplyKey(rows: seq<RawRow>, key: string -> Result<int, KeyError>): (r: Result<seq<Row>, KeyError>)
    ensures r.Success? <==> forall i :: 0 <= i < |rows| ==> key(rows[i].period).Success?
    ensures r.Success? ==> |r.value| == |rows|
    decreases |rows|
  {
    if rows == [] then Success([])
    else
      assert forall j :: 1 <= j < |rows| ==> rows[j] == rows[1..][j - 1];
      match key(rows[0].period)
      case Failure(e) => Failure(e)
      case Success(k) =>
        match ApplyKey(rows[1..], key)
        case Failure(e) => Failure(e)
        case Success(tail) => Success([Annotate(rows[0], k)] + tail)
  }

  /** Each row of a successful keying is its own row with the key and year
      of its own label. */
  lemma {:induction false} ApplyKeyPointwise(rows: seq<RawRow>, key: string -> Result<int, KeyError>)
    requires ApplyKey(rows, key).Success?
    ensures forall i :: 0 <= i < |rows| ==>
              ApplyKey(rows, key).value[i] == Annotate(rows[i], key(rows[i].period).value)
    decreases |rows|
  {
    if rows != [] {
      ApplyKeyPointwise(rows[1..], key);
      assert forall j :: 1 <= j < |rows| ==> rows[j] == rows[1..][j - 1];
    }
  }

  /** A failed keying raises the error of the first label without a key. */
  lemma {:induction false} ApplyKeyFirstError(rows: seq<RawRow>, key: string -> Result<int, KeyError>)
    requires ApplyKey(rows, key).Failure?
    ensures exists i :: 0 <= i < |rows| && key(rows[i].period) == Failure(ApplyKey(rows, key).error)
                     && forall j :: 0 <= j < i ==> key(rows[j].period).Success?
    decreases |rows|
  {
    if key(rows[0].period).Success? {
      var tail := rows[1..];
      ApplyKeyFirstError(tail, key);
      var i :| 0 <= i < |tail| && key(tail[i].period) == Failure(ApplyKey(tail, key).error)
               && forall j :: 0 <= j < i ==> key(tail[j].period).Success?;
      assert rows[i + 1] == tail[i];
      assert forall j :: 1 <= j < i + 1 ==> rows[j] == tail[j - 1];
    }
  }

  /** Keying a list with one more row at the end, whose label has a key,
      adds that row at the end. */
  lemma {:induction false} ApplyKeyAppend(rows: seq<RawRow>, x: RawRow, key: string -> Result<int, KeyError>, k: int)
    requires ApplyKey(rows, key).Success? && key(x.period) == Success(k)
    ensures ApplyKey(rows + [x], key) == Success(ApplyKey(rows, key).value + [Annotate(x, k)])
    decreases |rows|
  {
    var t := rows + [x];
    if rows == [] {
      assert t[0] == x && t[1..] == [];
      assert ApplyKey(t[1..], key) == Success([]);
      assert ApplyKey(t, key) == Success([Annotate(x, k)] + []);
      assert ApplyKey(rows, key).value == [];
      assert [Annotate(x, k)] + [] == [] + [Annotate(x, k)];
    } else {
      assert t[0] == rows[0];
      assert t[1..] == rows[1..] + [x];
      ApplyKeyAppend(rows[1..], x, key, k);
      var head := Annotate(rows[0], key(rows[0].period).value);
      var tail := ApplyKey(rows[1..], key).value;
      assert [head] + (tail + [Annotate(x, k)]) == ([head] + tail) + [Annotate(x, k)];
    }
  }

  /** Keying one more row extends a successful keying by that row. */
  lemma ApplyKeyExtend(rows: seq<RawRow>, i: nat, key: string -> Result<int, KeyError>, keyed: seq<Row>, k: int)
    requires i < |rows| && ApplyKey(rows[..i], key) == Success(keyed)
    requires key(rows[i].period) == Success(k)
    ensures ApplyKey(rows[..i + 1], key) == Success(keyed + [Annotate(rows[i], k)])
  {
    assert rows[..i + 1] == rows[..i] + [rows[i]];
    ApplyKeyAppend(rows[..i], rows[i], key, k);
  }

  /** The keying stops at the first row whose label has no key. */
  lemma ApplyKeyFailsAt(rows: seq<RawRow>, i: nat, key: string -> Result<int, KeyError>, keyed: seq<Row>, e: KeyError)
    requires i < |rows| && ApplyKey(rows[..i], key) == Success(keyed)
    requires key(rows[i].period) == Failure(e)
    ensures ApplyKey(rows, key) == Failure(e)
  {
    forall j | 0 <= j < i ensures key(rows[j].period).Success? {
      assert rows[j] == rows[..i][j];
    }
    ApplyKeyFirstError(rows, key);
    var w :| 0 <= w < |rows| && key(rows[w].period) == Failure(ApplyKey(rows, key).error)
             && forall j :: 0 <= j < w ==> key(rows[j].period).Success?;
    assert w == i;
  }

  /** The keying of `load_region_data`: `sort_quarter_key` on every kept
      row. */
  function KeyRows(rows: seq<RawRow>): (r: Result<seq<Row>, KeyError>)
    ensures r.Success? <==> forall i :: 0 <= i < |rows| ==> SortQuarterKey(rows[i].period).Success?
    ensures r.Success? ==> |r.value| == |rows|
  {
    ApplyKey(rows, SortQuarterKey)
  }

  /** The sort order of `sort_values(['地域', '四半期数値'])`: by region
      text, then by key. */
  predicate RowLe(a: Row, b: Row) {
    Less(a.region, b.region) || (a.region == b.region && a.key <= b.key)
  }

  lemma RowLeIsTotalPreorder()
    ensures TotalPreorder(RowLe)
  {
    forall a: Row, b: Row ensures RowLe(a, b) || RowLe(b, a) {
      LessTotal(a.region, b.region);
    }
    forall a: Row, b: Row, c: Row | RowLe(a, b) && RowLe(b, c) ensures RowLe(a, c) {
      if Less(a.region, b.region) && Less(b.region, c.region) {
        LessTransitive(a.region, b.region, c.region);
      }
    }
  }

  /** Every row of a successful keying is a kept row, keyed and dated from
      its own label. */
  lemma KeyedRowsWellKeyed(raw: seq<RawRow>, keyed: seq<Row>)
    requires KeyRows(KeepQuarterRows(raw)) == Success(keyed)
    ensures forall row :: row in keyed ==> WellKeyed(row) && Raw(row) in raw
  {
    var kept := KeepQuarterRows(raw);
    ApplyKeyPointwise(kept, SortQuarterKey);
    forall row | row in keyed ensures WellKeyed(row) && Raw(row) in raw {
      var j :| 0 <= j < |keyed| && keyed[j] == row;
      assert kept[j] in kept;
    }
  }

  /** A failed keying of the quarterly rows names a quarterly row of the
      sheet whose label has no key. */
  lemma FailedKeyingHasCulprit(raw: seq<RawRow>)
    requires KeyRows(KeepQuarterRows(raw)).Failure?
    ensures exists x :: x in raw && x.kind in QuarterKinds && SortQuarterKey(x.period).Failure?
  {
    var kept := KeepQuarterRows(raw);
    var i :| 0 <= i < |kept| && SortQuarterKey(kept[i].period).Failure?;
    assert kept[i] in kept;
  }

  /** A successful keying leaves no quarterly row of the sheet without
      a key. */
  lemma KeyedRowsCoverSheet(raw: seq<RawRow>, keyed: seq<Row>)
    requires KeyRows(KeepQuarterRows(raw)) == Success(keyed)
    ensures forall x :: x in raw && x.kind in QuarterKinds ==> SortQuarterKey(x.period).Success?
  {
    var kept := KeepQuarterRows(raw);
    forall x | x in raw && x.kind in QuarterKinds ensures SortQuarterKey(x.period).Success? {
      var i :| 0 <= i < |kept| && kept[i] == x;
    }
  }

  /** Sorting the keyed rows by (region, key) puts them in order and keeps
      every one of them a well-keyed quarterly row of the sheet. */
  lemma SortedKeyedRows(raw: seq<RawRow>, keyed: seq<Row>)
    requires KeyRows(KeepQuarterRows(raw)) == Success(keyed)
    ensures forall row :: row in SortBy(keyed, RowLe) ==> WellKeyed(row) && Raw(row) in raw
    ensures SortedBy(SortBy(keyed, RowLe), RowLe)
  {
    KeyedRowsWellKeyed(raw, keyed);
    var sorted := SortBy(keyed, RowLe);
    RowLeIsTotalPreorder();
    SortByIsSorted(keyed, RowLe);
    assert forall row :: row in sorted ==> row in multiset(keyed);
  }

  /** A load that meets a quarterly label without a key fails with that
      label's error, which is the error of keying the whole sheet. */
  lemma LoadFails(raw: seq<RawRow>, i: nat, keyed: seq<Row>, e: KeyError)
    requires i < |KeepQuarterRows(raw)|
    requires ApplyKey(KeepQuarterRows(raw)[..i], SortQuarterKey) == Success(keyed)
    requires SortQuarterKey(KeepQuarterRows(raw)[i].period) == Failure(e)
    ensures KeyRows(KeepQuarterRows(raw)) == Failure(e)
    ensures exists x :: x in raw && x.kind in QuarterKinds && SortQuarterKey(x.period).Failure?
  {
    ApplyKeyFailsAt(KeepQuarterRows(raw), i, SortQuarterKey, keyed, e);
    FailedKeyingHasCulprit(raw);
  }

  /** What a successful load returns: the keyed rows sorted by key, each
      keyed from a quarterly row of the sheet, and every quarterly row of
      the sheet keyed. */
  lemma LoadedRows(raw: seq<RawRow>, keyed: seq<Row>)
    requires KeyRows(KeepQuarterRows(raw)) == Success(keyed)
    ensures !exists x :: x in raw && x.kind in QuarterKinds && SortQuarterKey(x.period).Failure?
    ensures forall row :: row in SortBy(keyed, RowLe) ==> WellKeyed(row) && Raw(row) in raw
    ensures SortedBy(SortBy(keyed, RowLe), RowLe)
    ensures multiset(SortBy(keyed, RowLe)) == multiset(KeyRows(KeepQuarterRows(raw)).value)
  {
    KeyedRowsCoverSheet(raw, keyed);
    SortedKeyedRows(raw, keyed);
  }

  /** `load_region_data` once the sheet is read. It fails exactly when a
      quarterly row's label has no key, with the error of the first such
      row; otherwise every row it returns is a quarterly row of the sheet
      with the key and year of its label, the rows are in (region, key)
      order, and they are the quarterly rows, each once. */
  method LoadRegionData(raw: seq<RawRow>) returns (res: Result<seq<Row>, KeyError>)
    ensures res.Failure? <==> exists x :: x in raw && x.kind in QuarterKinds && SortQuarterKey(x.period).Failure?
    ensures res.Failure? ==> res == KeyRows(KeepQuarterRows(raw))
    ensures res.Success? ==> forall row :: row in res.value ==> WellKeyed(row) && Raw(row) in raw
    ensures res.Success? ==> SortedBy(res.value, RowLe)
    ensures res.Success? ==> multiset(res.value) == multiset(KeyRows(KeepQuarterRows(raw)).value)
  {
    var kept := KeepQuarterRows(raw);
    var keyed: seq<Row> := [];
    var i := 0;
    while i < |kept|
      invariant 0 <= i <= |kept|
      invariant ApplyKey(kept[..i], SortQuarterKey) == Success(keyed)
    {
      var key := SortQuarterKey(kept[i].period);
      if key.Failure? {
        LoadFails(raw, i, keyed, key.error);
        return Failure(key.error);
      }
      ApplyKeyExtend(kept, i, SortQuarterKey, keyed, key.value);
      keyed := keyed + [Annotate(kept[i], key.value)];
      i := i + 1;
    }
    assert kept[..i] == kept;
    LoadedRows(raw, keyed);
    res := Success(SortBy(keyed, RowLe));
  }
}
