// Fiscal-quarter labels such as "FY2023-1Q": the integer sort key that
// app.py's `sort_quarter_key` derives from a label, and the fiscal-year
// text ("FY2023") that `load_region_data` extracts from it.
module QuarterKey {
  import opened Wrappers
  import opened Text

  /** What `sort_quarter_key` can raise. */
  datatype KeyError =
    | ValueError(text: string)  // `int()` of a piece that is not a number
    | IndexError                // there is no second piece: no '-'

  /** The pieces `sort_quarter_key` reads: the label with every "FY" and
      then every "Q" deleted, split at '-'. */
  function KeyParts(q: string): (parts: seq<string>)
    ensures |parts| >= 1
    ensures |parts| == 1 <==> '-' !in RemoveAll(RemoveAll(q, "FY"), "Q")
  {
    Split(RemoveAll(RemoveAll(q, "FY"), "Q"), '-')
  }

  /** `sort_quarter_key(q)`: `int(parts[0]) * 10 + int(parts[1])`, evaluated
      left to right, so a bad first piece raises `ValueError` before a
      missing second piece raises `IndexError`. Pieces after the second are
      ignored. A label without '-' never gets a key, and a key is never
      negative. */
  function SortQuarterKey(q: string): (r: Result<int, KeyError>)
    ensures r.Success? ==> '-' in q && r.value >= 0
  {
    var parts := KeyParts(q);
    match ParseInt(parts[0])
    case None => Failure(ValueError(parts[0]))
    case Some(year) =>
      if |parts| < 2 then Failure(IndexError)
      else
        match ParseInt(parts[1])
        case None => Failure(ValueError(parts[1]))
        case Some(quarter) => Success(year * 10 + quarter)
  }

  // ---------------------------------------------------------------------
  // Well-formed labels
  // ---------------------------------------------------------------------

  /** Text that neither deletion nor splitting touches. */
  predicate Plain(s: string) {
    'F' !in s && 'Q' !in s && '-' !in s
  }

  /** Deleting "FY" and "Q" from "<a>-<b>Q" leaves "<a>-<b>". */
  lemma StripMarkers(a: string, b: string)
    requires Plain(a) && Plain(b)
    ensures RemoveAll(RemoveAll(a + "-" + b + "Q", "FY"), "Q") == a + "-" + b
  {
    var body := a + "-" + b;
    assert 'F' !in body + "Q" && 'Q' !in body;
    RemoveAllAbsent(body + "Q", "FY");
    RemoveAllKeeps(body, "Q", "Q");
    RemoveAllLeading("Q", []);
    assert "Q" + [] == "Q" && body + [] == body;
  }

  /** "<a>-<b>" splits into `a` and `b`. */
  lemma SplitAtDash(a: string, b: string)
    requires '-' !in a && '-' !in b
    ensures Split(a + "-" + b, '-') == [a, b]
  {
    var t := "-" + b;
    assert t[0] == '-' && t[1..] == b;
    SplitWithoutSeparator(b, '-');
    assert Split(t, '-') == [[]] + Split(b, '-');
    SplitLeading(a, t, '-');
    var parts := Split(t, '-');
    assert parts[0] == [] && parts[1..] == [b];
    assert a + parts[0] == a;
    assert a + t == a + "-" + b;
  }

  /** For a label of the shape "FY<a>-<b>Q" the two pieces read are exactly
      `a` and `b`. */
  lemma ShapedLabelParts(a: string, b: string)
    requires Plain(a) && Plain(b)
    ensures KeyParts("FY" + a + "-" + b + "Q") == [a, b]
  {
    assert "FY" + a + "-" + b + "Q" == "FY" + (a + "-" + b + "Q");
    RemoveAllLeading("FY", a + "-" + b + "Q");
    StripMarkers(a, b);
    SplitAtDash(a, b);
  }

  /** A label of the shape "FY<a>-<b>Q" gets a key exactly when `a` and `b`
      are non-empty digit strings, and the key is then `a * 10 + b`, leading
      zeros allowed. */
  lemma ShapedLabelKey(a: string, b: string)
    requires Plain(a) && Plain(b)
    ensures SortQuarterKey("FY" + a + "-" + b + "Q").Success?
        <==> |a| > 0 && IsDigits(a) && |b| > 0 && IsDigits(b)
    ensures SortQuarterKey("FY" + a + "-" + b + "Q").Success?
        ==> SortQuarterKey("FY" + a + "-" + b + "Q").value == DigitsValue(a) * 10 + DigitsValue(b)
  {
    ShapedLabelParts(a, b);
  }

  /** A fiscal quarter: the fiscal year and the quarter number. */
  datatype Period = Period(year: nat, quarter: nat)

  /** The label the data uses for a period, "FY<year>-<quarter>Q". */
  function Label(p: Period): (s: string) {
    "FY" + Decimal(p.year) + "-" + Decimal(p.quarter) + "Q"
  }

  lemma DigitsArePlain(s: string)
    requires IsDigits(s)
    ensures Plain(s)
  {
    forall c | c in s ensures IsDigit(c) {
      var i :| 0 <= i < |s| && s[i] == c;
    }
  }

  /** The key of a period's label is `year * 10 + quarter`
      ("FY2023-1Q" gives 20231). */
  lemma LabelKey(p: Period)
    ensures SortQuarterKey(Label(p)) == Success(PeriodKey(p))
  {
    DigitsArePlain(Decimal(p.year));
    DigitsArePlain(Decimal(p.quarter));
    ShapedLabelKey(Decimal(p.year), Decimal(p.quarter));
    DecimalRoundTrip(p.year);
    DecimalRoundTrip(p.quarter);
  }

  /** The example in the function's own documentation. */
  lemma ExampleKey()
    ensures SortQuarterKey("FY2023-1Q") == Success(20231)
  {
    assert Decimal(2023) == "2023";
    assert Decimal(1) == "1";
    assert Label(Period(2023, 1)) == "FY2023-1Q";
    LabelKey(Period(2023, 1));
  }

  /** `p` comes before `p'`: an earlier fiscal year, or the same year and an
      earlier quarter. */
  predicate Before(p: Period, p': Period) {
    p.year < p'.year || (p.year == p'.year && p.quarter < p'.quarter)
  }

  /** Quarter numbers 1 to 4, the only ones the data keeps. */
  predicate InQuarterRange(p: Period) {
    1 <= p.quarter <= 4
  }

  /** The key of a period: `year * 10 + quarter`. */
  function PeriodKey(p: Period): (k: int) {
    p.year * 10 + p.quarter
  }

  /** On quarters 1 to 4, key order is chronological order. */
  lemma PeriodKeyOrder(p: Period, p': Period)
    requires InQuarterRange(p) && InQuarterRange(p')
    ensures PeriodKey(p) < PeriodKey(p') <==> Before(p, p')
    ensures PeriodKey(p) == PeriodKey(p') <==> p == p'
  {
  }

  /** On quarters 1 to 4 the key orders labels chronologically, so equal
      keys mean equal periods. */
  lemma KeyOrderIsChronological(p: Period, p': Period)
    requires InQuarterRange(p) && InQuarterRange(p')
    ensures SortQuarterKey(Label(p)).Success? && SortQuarterKey(Label(p')).Success?
    ensures SortQuarterKey(Label(p)).value < SortQuarterKey(Label(p')).value <==> Before(p, p')
    ensures SortQuarterKey(Label(p)) == SortQuarterKey(Label(p')) <==> p == p'
  {
    LabelKey(p);
    LabelKey(p');
    PeriodKeyOrder(p, p');
  }

  /** The key of "FY2023-10Q", a label with a two-digit quarter. */
  lemma WideQuarterKey()
    ensures SortQuarterKey("FY2023-10Q") == Success(20240)
  {
    assert Decimal(2023) == "2023" && Decimal(10) == "10";
    assert Label(Period(2023, 10)) == "FY2023-10Q";
    LabelKey(Period(2023, 10));
  }

  /** The key of "FY2024-0Q", a label with quarter 0. */
  lemma ZeroQuarterKey()
    ensures SortQuarterKey("FY2024-0Q") == Success(20240)
  {
    assert Decimal(2024) == "2024" && Decimal(0) == "0";
    assert Label(Period(2024, 0)) == "FY2024-0Q";
    LabelKey(Period(2024, 0));
  }

  /** Past one digit the key stops being injective: "FY2023-10Q" and
      "FY2024-0Q" share the key 20240. */
  lemma WideQuarterCollides()
    ensures SortQuarterKey("FY2023-10Q") == SortQuarterKey("FY2024-0Q") == Success(20240)
  {
    WideQuarterKey();
    ZeroQuarterKey();
  }

  /** `int()` ignores leading zeros, so "FY2023-01Q" gets the key of
      "FY2023-1Q" although the labels differ. */
  lemma LeadingZeroCollides()
    ensures SortQuarterKey("FY2023-01Q") == SortQuarterKey("FY2023-1Q") == Success(20231)
  {
    var a, b := "2023", "01";
    assert IsDigits(a) && IsDigits(b);
    DigitsArePlain(a);
    DigitsArePlain(b);
    ShapedLabelKey(a, b);
    assert "FY" + a + "-" + b + "Q" == "FY2023-01Q";
    assert b[..1] == "0" && "0"[..0] == [];
    assert DigitsValue(b) == 1;
    assert a[..3] == "202" && "202"[..2] == "20" && "20"[..1] == "2" && "2"[..0] == [];
    assert DigitsValue(a) == 2023;
    ExampleKey();
  }

  /** Deleting "FY" and "Q" from "2023-1Q", which has no "FY", leaves
      "2023-1". */
  lemma StripUnprefixed()
    ensures RemoveAll(RemoveAll("2023-1Q", "FY"), "Q") == "2023-1"
  {
    DigitsArePlain("2023");
    DigitsArePlain("1");
    StripMarkers("2023", "1");
    assert "2023" + "-" + "1" + "Q" == "2023-1Q";
    assert "2023" + "-" + "1" == "2023-1";
  }

  /** The pieces of "2023-1Q". */
  lemma UnprefixedParts()
    ensures KeyParts("2023-1Q") == ["2023", "1"]
  {
    StripUnprefixed();
    SplitAtDash("2023", "1");
    assert "2023" + "-" + "1" == "2023-1";
  }

  /** `int("2023") == 2023` and `int("1") == 1`. */
  lemma ParseUnprefixedPieces()
    ensures ParseInt("2023") == Some(2023) && ParseInt("1") == Some(1)
  {
    assert Decimal(2023) == "2023" && Decimal(1) == "1";
    DecimalRoundTrip(2023);
    DecimalRoundTrip(1);
  }

  /** The "FY" prefix is deleted, not checked: "2023-1Q" gets the same key
      as "FY2023-1Q". */
  lemma MissingPrefixAccepted()
    ensures SortQuarterKey("2023-1Q") == Success(20231)
  {
    UnprefixedParts();
    ParseUnprefixedPieces();
  }

  /** `int(parts[0])` is evaluated before `parts[1]` is looked up: a label
      "FY<a>Q" without '-' whose year part is not a number raises
      `ValueError`, not `IndexError`. */
  lemma BadYearRaisesBeforeMissingDash(a: string)
    requires Plain(a) && !(|a| > 0 && IsDigits(a))
    ensures SortQuarterKey("FY" + a + "Q") == Failure(ValueError(a))
  {
    var q := "FY" + a + "Q";
    assert q == "FY" + (a + "Q");
    RemoveAllLeading("FY", a + "Q");
    assert 'F' !in a + "Q";
    RemoveAllAbsent(a + "Q", "FY");
    RemoveAllKeeps(a, "Q", "Q");
    RemoveAllLeading("Q", []);
    assert "Q" + [] == "Q" && a + [] == a;
    assert RemoveAll(RemoveAll(q, "FY"), "Q") == a;
    SplitWithoutSeparator(a, '-');
    assert KeyParts(q) == [a];
  }

  /** A label that puts "Q" before the quarter number, "FY<a>Q<b>", has no
      '-' and raises `IndexError` once its first piece parses. */
  lemma QuarterFirstLabelFails(a: string, b: string)
    requires |a| > 0 && IsDigits(a) && IsDigits(b)
    ensures SortQuarterKey("FY" + a + "Q" + b) == Failure(IndexError)
  {
    DigitsArePlain(a);
    DigitsArePlain(b);
    var q := "FY" + a + "Q" + b;
    var body := a + ("Q" + b);
    assert q == "FY" + body;
    RemoveAllLeading("FY", body);
    assert 'F' !in body;
    RemoveAllAbsent(body, "FY");
    assert RemoveAll(q, "FY") == body;
    RemoveAllKeeps(a, "Q" + b, "Q");
    RemoveAllLeading("Q", b);
    RemoveAllAbsent(b, "Q");
    var rest := a + b;
    assert RemoveAll(body, "Q") == rest;
    assert IsDigits(rest) && '-' !in rest by {
      assert forall i :: 0 <= i < |rest| ==> rest[i] == (if i < |a| then a[i] else b[i - |a|]);
    }
    SplitWithoutSeparator(rest, '-');
    assert KeyParts(q) == [rest];
  }

  // ---------------------------------------------------------------------
  // The fiscal-year column: str.extract(r'(FY\d{4})')
  // ---------------------------------------------------------------------

  /** "FY" followed by four digits starts at index `i` of `s`. */
  predicate YearAt(s: string, i: nat) {
    i + 6 <= |s| && s[i..i + 2] == "FY" && IsDigits(s[i + 2..i + 6])
  }

  /** The leftmost match of `FY\d{4}` at or after index `i`. */
  function ExtractYearFrom(s: string, i: nat): (r: Option<string>)
    ensures r.Some? <==> exists k: nat :: i <= k && YearAt(s, k)
    ensures r.Some? ==> exists k: nat :: i <= k && YearAt(s, k) && r.value == s[k..k + 6]
                                        && forall j: nat :: i <= j < k ==> !YearAt(s, j)
    decreases |s| - i
  {
    if i + 6 > |s| then None
    else if YearAt(s, i) then Some(s[i..i + 6])
    else ExtractYearFrom(s, i + 1)
  }

  /** `df['決算年度'].str.extract(r'(FY\d{4})')[0]` for one label: the first
      "FY" followed by four digits anywhere in the label, or `None` (NaN)
      when there is none. */
  function ExtractYear(s: string): (r: Option<string>)
    ensures r.Some? <==> exists k: nat :: YearAt(s, k)
    ensures r.Some? ==> exists k: nat :: YearAt(s, k) && r.value == s[k..k + 6]
                                        && forall j: nat :: j < k ==> !YearAt(s, j)
  {
    ExtractYearFrom(s, 0)
  }

  /** A label without an 'F', such as "2023-1Q", has no fiscal year: the
      column gets NaN. */
  lemma NoYearWithoutPrefix(s: string)
    requires 'F' !in s
    ensures ExtractYear(s) == None
  {
    forall k: nat ensures !YearAt(s, k) {
      if k + 6 <= |s| {
        assert s[k..k + 2][0] == s[k];
      }
    }
  }

  /** An extracted fiscal year is "FY" and four digits. */
  lemma ExtractedYearShape(s: string)
    requires ExtractYear(s).Some?
    ensures |ExtractYear(s).value| == 6
    ensures ExtractYear(s).value[..2] == "FY" && IsDigits(ExtractYear(s).value[2..])
  {
    var k: nat :| YearAt(s, k) && ExtractYear(s).value == s[k..k + 6];
    var t := s[k..k + 6];
    assert t[..2] == s[k..k + 2];
    assert t[2..] == s[k + 2..k + 6];
  }

  /** The fiscal-year text of year `y`, "FY2023" for 2023. */
  function YearLabel(y: nat): (s: string) {
    "FY" + Decimal(y)
  }

  /** A label with a four-digit year yields that year's text. */
  lemma ExtractYearOfLabel(p: Period)
    requires 1000 <= p.year <= 9999
    ensures ExtractYear(Label(p)) == Some(YearLabel(p.year))
  {
    var s := Label(p);
    DecimalFourDigits(p.year);
    assert s[0..2] == "FY";
    assert s[2..6] == Decimal(p.year);
    assert YearAt(s, 0);
    assert s[0..6] == YearLabel(p.year);
  }

  /** With four-digit years, a label starts with a year's text exactly when
      it belongs to that year. */
  lemma YearPrefix(p: Period, y: nat)
    requires 1000 <= p.year <= 9999 && 1000 <= y <= 9999
    ensures YearLabel(y) <= Label(p) <==> p.year == y
  {
    DecimalFourDigits(p.year);
    DecimalFourDigits(y);
    var s := Label(p);
    assert s[..6] == YearLabel(p.year);
    if YearLabel(y) <= s {
      assert YearLabel(y) == s[..6];
      assert Decimal(y) == YearLabel(y)[2..] == YearLabel(p.year)[2..] == Decimal(p.year);
      DecimalInjective(y, p.year);
    }
  }
}
