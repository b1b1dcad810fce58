/**
 * The data side of the analytical reports page (app/pages/reports.py): the
 * year-range filter every report starts from, and the tables behind the top
 * items chart, the country metric, the period trend, the tax-burden chart, the
 * monthly pattern and the yearly summary.
 */
module Reports {
  import opened Wrappers
  import opened Frames
  import opened Text
  import opened Groups
  import opened DataLoader

  // ---- the year range (lines 25-35) ----

  function Year(r: Row): int
    requires IntAt(r, "Year")
  {
    r["Year"].i
  }

  function InYears(lo: int, hi: int): Row -> bool {
    r => IntAt(r, "Year") && lo <= Year(r) <= hi
  }

  /** `df[(df['Year'] >= lo) & (df['Year'] <= hi)]`. */
  function YearFilter(rows: seq<Row>, lo: int, hi: int): (kept: seq<Row>)
    requires IntColumn(rows, "Year")
    ensures |kept| <= |rows|
    ensures forall r :: r in kept <==> r in rows && lo <= Year(r) <= hi
  {
    assert forall r :: r in rows ==> IntAt(r, "Year");
    Filter(rows, InYears(lo, hi))
  }

  /** The filter works row by row, so the kept rows stay in their original order. */
  lemma YearFilterOrder(a: seq<Row>, b: seq<Row>, lo: int, hi: int)
    requires IntColumn(a, "Year") && IntColumn(b, "Year")
    ensures IntColumn(a + b, "Year")
    ensures YearFilter(a + b, lo, hi) == YearFilter(a, lo, hi) + YearFilter(b, lo, hi)
  {
    FilterAppend(a, b, InYears(lo, hi));
  }

  /**
   * `(int(df['Year'].min()), int(df['Year'].max()))`, the slider's range and its
   * default value; an empty frame has no minimum, and `int` of the missing value raises.
   */
  function YearBounds(rows: seq<Row>): (b: Option<(int, int)>)
    requires IntColumn(rows, "Year")
    ensures b.None? <==> rows == []
    ensures b.Some? ==> (exists i :: 0 <= i < |rows| && Year(rows[i]) == b.value.0)
    ensures b.Some? ==> (exists i :: 0 <= i < |rows| && Year(rows[i]) == b.value.1)
    ensures b.Some? ==> forall i :: 0 <= i < |rows| ==> b.value.0 <= Year(rows[i]) <= b.value.1
  {
    if rows == [] then None
    else
      var front := rows[..|rows| - 1];
      var y := Year(rows[|rows| - 1]);
      match YearBounds(front)
      case None => Some((y, y))
      case Some((lo, hi)) =>
        Some((if y < lo then y else lo, if y > hi then y else hi))
  }

  /** With the slider left at its default range every row is kept. */
  lemma DefaultRangeKeepsAll(rows: seq<Row>)
    requires IntColumn(rows, "Year") && rows != []
    ensures YearFilter(rows, YearBounds(rows).value.0, YearBounds(rows).value.1) == rows
  {
    var b := YearBounds(rows).value;
    FilterAll(rows, InYears(b.0, b.1));
  }

  // ---- top items (line 40) ----

  const TOP_COUNT: nat := 10

  /** `df.groupby('Item_Description')['CIF_Value_USD'].sum().nlargest(10)`. */
  function TopItems(rows: seq<Row>): seq<(Value, real)>
    requires KeyColumn(rows, "Item_Description") && NumberColumn(rows, "CIF_Value_USD")
  {
    NLargest(GroupSums(rows, "Item_Description", "CIF_Value_USD"), TOP_COUNT)
  }

  /** At most ten entries, one per distinct item while there are fewer, largest total first, no item twice. */
  lemma TopItemsMeaning(rows: seq<Row>)
    requires KeyColumn(rows, "Item_Description") && NumberColumn(rows, "CIF_Value_USD")
    ensures var top := TopItems(rows);
      && |top| == (if TOP_COUNT < |KeyValues(rows, "Item_Description")| then TOP_COUNT else |KeyValues(rows, "Item_Description")|)
      && (forall i, j :: 0 <= i < j < |top| ==> top[i].1 >= top[j].1)
      && (forall i, j :: 0 <= i < j < |top| ==> top[i].0 != top[j].0)
  {
    var g := GroupSums(rows, "Item_Description", "CIF_Value_USD");
    GroupSumsCount(rows, "Item_Description", "CIF_Value_USD");
    NLargestMeaning(g, TOP_COUNT);
    GroupSumsDistinctKeys(rows, "Item_Description", "CIF_Value_USD");
    NLargestDistinctKeys(g, TOP_COUNT);
  }

  /** Each entry shown is an item with its total CIF value over exactly that item's rows. */
  lemma TopItemsTotals(rows: seq<Row>)
    requires KeyColumn(rows, "Item_Description") && NumberColumn(rows, "CIF_Value_USD")
    ensures forall e :: e in TopItems(rows) ==>
      && e.0 in KeyValues(rows, "Item_Description")
      && NumberColumn(Group(rows, "Item_Description", e.0), "CIF_Value_USD")
      && e.1 == ColumnSum(Group(rows, "Item_Description", e.0), "CIF_Value_USD")
  {
    var g := GroupSums(rows, "Item_Description", "CIF_Value_USD");
    GroupSumsMeaning(rows, "Item_Description", "CIF_Value_USD");
    NLargestMeaning(g, TOP_COUNT);
    forall e | e in TopItems(rows)
      ensures e.0 in KeyValues(rows, "Item_Description")
      ensures NumberColumn(Group(rows, "Item_Description", e.0), "CIF_Value_USD")
      ensures e.1 == ColumnSum(Group(rows, "Item_Description", e.0), "CIF_Value_USD")
    {
      var j :| 0 <= j < |g| && g[j] == e;
    }
  }

  /** No item left out of the ten has a larger total than an item shown. */
  lemma TopItemsLeftOut(rows: seq<Row>)
    requires KeyColumn(rows, "Item_Description") && NumberColumn(rows, "CIF_Value_USD")
    ensures forall e, f ::
      e in GroupSums(rows, "Item_Description", "CIF_Value_USD") && e !in TopItems(rows) && f in TopItems(rows) ==> e.1 <= f.1
  {
    NLargestLeftOut(GroupSums(rows, "Item_Description", "CIF_Value_USD"), TOP_COUNT);
  }

  // ---- the country metric (lines 72-74) ----

  /** `df[df['Country_of_Origin'] == country]['CIF_Value_USD'].sum()`. */
  function CountryTotal(rows: seq<Row>, country: Value): real
    requires NumberColumn(rows, "CIF_Value_USD")
  {
    SelectionNumberColumn(rows, Group(rows, "Country_of_Origin", country), "CIF_Value_USD");
    ColumnSum(Group(rows, "Country_of_Origin", country), "CIF_Value_USD")
  }

  /**
   * The metric sums exactly the rows of the chosen country: it is that
   * country's entry of the per-country sums, and 0 for a value no row has.
   */
  lemma CountryTotalMeaning(rows: seq<Row>, country: Value)
    requires KeyColumn(rows, "Country_of_Origin") && NumberColumn(rows, "CIF_Value_USD")
    ensures country in KeyValues(rows, "Country_of_Origin") ==>
      (country, CountryTotal(rows, country)) in GroupSums(rows, "Country_of_Origin", "CIF_Value_USD")
    ensures country !in KeyValues(rows, "Country_of_Origin") ==> CountryTotal(rows, country) == 0.0
  {
    var g := GroupSums(rows, "Country_of_Origin", "CIF_Value_USD");
    GroupSumsMeaning(rows, "Country_of_Origin", "CIF_Value_USD");
    if country in KeyValues(rows, "Country_of_Origin") {
      var j :| 0 <= j < |g| && g[j].0 == country;
      assert g[j] == (country, CountryTotal(rows, country));
    } else {
      forall i | 0 <= i < |rows| ensures !InGroup("Country_of_Origin", country)(rows[i]) {
        assert rows[i]["Country_of_Origin"] in KeyValues(rows, "Country_of_Origin");
      }
      FilterNone(rows, InGroup("Country_of_Origin", country));
    }
  }

  // ---- the period label and trend (lines 93, 98) ----

  /** `str(year) + '-' + str(month).zfill(2)`. */
  function PeriodLabel(year: int, month: int): string {
    IntToString(year) + "-" + ZFill(IntToString(month), 2)
  }

  /**
   * A period label is the year's string, a dash, and the month part: for a
   * nonnegative month at least two digits whose value is the month, for a
   * negative one its minus sign and digits, left unpadded.
   */
  lemma PeriodLabelShape(year: int, month: int)
    ensures var z := ZFill(IntToString(month), 2);
      && PeriodLabel(year, month) == IntToString(year) + "-" + z
      && (month >= 0 ==> |z| >= 2 && AllDigits(z) && ParseNat(z) == month)
      && (month < 0 ==> z == "-" + NatToString(-month))
  {
    if month >= 0 {
      ZFillValue(NatToString(month), 2);
      ParseNatToString(month);
    }
  }

  /** A dash after a run of digits marks where the run ends, so such a join can be split back uniquely. */
  lemma DashSplit(s1: string, z1: string, s2: string, z2: string)
    requires AllDigits(s1) && AllDigits(s2)
    requires s1 + "-" + z1 == s2 + "-" + z2
    ensures s1 == s2 && z1 == z2
  {
    var joined := s1 + "-" + z1;
    assert |s1| == |s2| by {
      assert joined[|s1|] == '-' && joined[|s2|] == '-';
      assert forall k :: 0 <= k < |s1| ==> joined[k] == s1[k];
      assert forall k :: 0 <= k < |s2| ==> joined[k] == s2[k];
    }
    assert s1 == joined[..|s1|] == s2;
    assert z1 == joined[|s1| + 1..] == z2;
  }

  /** The year part of a label ends at the first dash after its optional sign, so it is read back uniquely. */
  lemma YearPartSplit(y1: int, z1: string, y2: int, z2: string)
    requires IntToString(y1) + "-" + z1 == IntToString(y2) + "-" + z2
    ensures y1 == y2 && z1 == z2
  {
    var s1, s2 := IntToString(y1), IntToString(y2);
    var joined := s1 + "-" + z1;
    assert joined[0] == s1[0] && joined[0] == s2[0];
    if y1 < 0 {
      assert joined[1..] == s1[1..] + "-" + z1;
      assert joined[1..] == s2[1..] + "-" + z2;
      DashSplit(s1[1..], z1, s2[1..], z2);
      assert s1 == [s1[0]] + s1[1..] && s2 == [s2[0]] + s2[1..];
    } else {
      DashSplit(s1, z1, s2, z2);
    }
    IntToStringInjective(y1, y2);
  }

  /** A padded month part starts with a minus sign exactly when the month is negative. */
  lemma MonthPartSign(m: int)
    ensures |ZFill(IntToString(m), 2)| >= 2
    ensures ZFill(IntToString(m), 2)[0] == '-' <==> m < 0
  {
    if m >= 0 {
      ZFillValue(IntToString(m), 2);
    }
  }

  /** Different months have different padded month parts. */
  lemma MonthPartInjective(m1: int, m2: int)
    requires ZFill(IntToString(m1), 2) == ZFill(IntToString(m2), 2)
    ensures m1 == m2
  {
    MonthPartSign(m1);
    MonthPartSign(m2);
    if m1 < 0 {
      IntToStringInjective(m1, m2);
    } else {
      ZFillValue(NatToString(m1), 2);
      ZFillValue(NatToString(m2), 2);
      ParseNatToString(m1);
      ParseNatToString(m2);
    }
  }

  /** Different (year, month) pairs get different labels, so the trend has one point per month. */
  lemma PeriodLabelInjective(y1: int, m1: int, y2: int, m2: int)
    requires PeriodLabel(y1, m1) == PeriodLabel(y2, m2)
    ensures y1 == y2 && m1 == m2
  {
    YearPartSplit(y1, ZFill(IntToString(m1), 2), y2, ZFill(IntToString(m2), 2));
    MonthPartInjective(m1, m2);
  }

  /** The right-hand side of line 93. */
  function PeriodColumn(rows: seq<Row>): (vs: seq<Value>)
    requires IntColumn(rows, "Year") && IntColumn(rows, "Month")
    ensures |vs| == |rows|
  {
    seq(|rows|, i requires 0 <= i < |rows| => Str(PeriodLabel(Year(rows[i]), rows[i]["Month"].i)))
  }

  /** Line 93: `df['Period'] = ...`, in place. */
  method AddPeriod(df: Frame)
    requires df.Valid() && IntColumn(df.rows, "Year") && IntColumn(df.rows, "Month")
    modifies df
    ensures df.Valid()
    ensures df.Snapshot() == AssignColumn(old(df.Snapshot()), "Period", PeriodColumn(old(df.rows)))
  {
    df.SetColumn("Period", PeriodColumn(df.rows));
  }

  /** Line 98: `df.groupby('Period')['CIF_Value_USD'].sum()`. */
  function PeriodTrend(rows: seq<Row>): seq<(Value, real)>
    requires KeyColumn(rows, "Period") && NumberColumn(rows, "CIF_Value_USD")
  {
    GroupSums(rows, "Period", "CIF_Value_USD")
  }

  /**
   * After the Period column is added the trend can be computed, and the rows
   * of a period's group are exactly the rows of that year and month.
   */
  lemma PeriodTrendMeaning(t: Table, year: int, month: int)
    requires IntColumn(t.rows, "Year") && IntColumn(t.rows, "Month") && NumberColumn(t.rows, "CIF_Value_USD")
    ensures var p := AssignColumn(t, "Period", PeriodColumn(t.rows));
      && KeyColumn(p.rows, "Period") && NumberColumn(p.rows, "CIF_Value_USD")
      && forall i :: 0 <= i < |t.rows| ==>
           ((p.rows[i] in Group(p.rows, "Period", Str(PeriodLabel(year, month))))
            <==> (Year(t.rows[i]) == year && t.rows[i]["Month"].i == month))
  {
    var p := AssignColumn(t, "Period", PeriodColumn(t.rows));
    forall i | 0 <= i < |t.rows|
      ensures p.rows[i] in Group(p.rows, "Period", Str(PeriodLabel(year, month)))
        <==> Year(t.rows[i]) == year && t.rows[i]["Month"].i == month
    {
      assert p.rows[i] in p.rows;
      var y, m := Year(t.rows[i]), t.rows[i]["Month"].i;
      if PeriodLabel(y, m) == PeriodLabel(year, month) {
        PeriodLabelInjective(y, m, year, month);
      }
    }
  }

  // ---- the tax burden (lines 167-175) ----

  /** A float quotient: finite, +inf, -inf or NaN. */
  datatype Percent = Finite(value: real) | PosInf | NegInf | NaN

  /** `(tax / cif) * 100` in floating point: dividing by zero gives an infinity, or NaN for 0 / 0. */
  function Percentage(tax: real, cif: real): Percent {
    if cif != 0.0 then Finite(tax / cif * 100.0)
    else if tax > 0.0 then PosInf
    else if tax < 0.0 then NegInf
    else NaN
  }

  /** One row of `tax_impact` with its Tax_Percentage column. */
  datatype TaxRow = TaxRow(country: Value, taxLoad: real, cif: real, percent: Percent)

  /** Lines 167-172: per country the two sums, then the percentage. */
  function TaxImpact(rows: seq<Row>): (t: seq<TaxRow>)
    requires KeyColumn(rows, "Country_of_Origin")
    requires NumberColumn(rows, "Tax_Load") && NumberColumn(rows, "CIF_Value_USD")
  {
    var ks := GroupKeys(rows, "Country_of_Origin");
    forall k ensures NumberColumn(Group(rows, "Country_of_Origin", k), "Tax_Load")
      && NumberColumn(Group(rows, "Country_of_Origin", k), "CIF_Value_USD")
    {
      SelectionNumberColumn(rows, Group(rows, "Country_of_Origin", k), "Tax_Load");
      SelectionNumberColumn(rows, Group(rows, "Country_of_Origin", k), "CIF_Value_USD");
    }
    seq(|ks|, j requires 0 <= j < |ks| =>
      var g := Group(rows, "Country_of_Origin", ks[j]);
      var tax := ColumnSum(g, "Tax_Load");
      var cif := ColumnSum(g, "CIF_Value_USD");
      TaxRow(ks[j], tax, cif, Percentage(tax, cif)))
  }

  /** How `sort_values(ascending=False)` orders percentages: +inf, the finite values from high to low, -inf, and NaN last. */
  function PercentRank(row: TaxRow): Rank {
    match row.percent
    case PosInf => Rank(3, 0.0)
    case Finite(v) => Rank(2, v)
    case NegInf => Rank(1, 0.0)
    case NaN => Rank(0, 0.0)
  }

  /** Line 175: the chart's input, `tax_impact.sort_values('Tax_Percentage', ascending=False)`. */
  function TaxChart(rows: seq<Row>): seq<TaxRow>
    requires KeyColumn(rows, "Country_of_Origin")
    requires NumberColumn(rows, "Tax_Load") && NumberColumn(rows, "CIF_Value_USD")
  {
    SortDescending(TaxImpact(rows), PercentRank)
  }

  /**
   * The chart holds every country's row once, finite percentages from high to
   * low, infinities at the ends of the finite run and NaN rows after all others.
   */
  lemma TaxChartMeaning(rows: seq<Row>)
    requires KeyColumn(rows, "Country_of_Origin")
    requires NumberColumn(rows, "Tax_Load") && NumberColumn(rows, "CIF_Value_USD")
    ensures var chart := TaxChart(rows);
      && multiset(chart) == multiset(TaxImpact(rows))
      && (forall i, j :: 0 <= i < j < |chart| && chart[i].percent.Finite? && chart[j].percent.Finite? ==>
            chart[i].percent.value >= chart[j].percent.value)
      && (forall i, j :: 0 <= i < j < |chart| && chart[i].percent.NaN? ==> chart[j].percent.NaN?)
      && (forall i, j :: 0 <= i < j < |chart| && chart[j].percent.PosInf? ==> chart[i].percent.PosInf?)
      && (forall i, j :: 0 <= i < j < |chart| && chart[i].percent.NegInf? ==> chart[j].percent.NegInf? || chart[j].percent.NaN?)
  {
    PercentOrder(TaxChart(rows));
  }

  /** Rows in non-increasing percentage rank have their finite values descending, +inf first, -inf after the finite ones and NaN last. */
  lemma PercentOrder(chart: seq<TaxRow>)
    requires NonIncreasing(chart, PercentRank)
    ensures forall i, j :: 0 <= i < j < |chart| && chart[i].percent.Finite? && chart[j].percent.Finite? ==>
      chart[i].percent.value >= chart[j].percent.value
    ensures forall i, j :: 0 <= i < j < |chart| && chart[i].percent.NaN? ==> chart[j].percent.NaN?
    ensures forall i, j :: 0 <= i < j < |chart| && chart[j].percent.PosInf? ==> chart[i].percent.PosInf?
    ensures forall i, j :: 0 <= i < j < |chart| && chart[i].percent.NegInf? ==> chart[j].percent.NegInf? || chart[j].percent.NaN?
  {
    forall i, j | 0 <= i < j < |chart| ensures AtLeast(PercentRank(chart[i]), PercentRank(chart[j])) {
    }
  }

  /**
   * One row per country, in key order, holding that country's tax-load and CIF
   * sums over exactly its rows and their float quotient as a percentage.
   */
  lemma TaxImpactMeaning(rows: seq<Row>)
    requires KeyColumn(rows, "Country_of_Origin")
    requires NumberColumn(rows, "Tax_Load") && NumberColumn(rows, "CIF_Value_USD")
    ensures var t := TaxImpact(rows);
      && (forall k :: (exists j :: 0 <= j < |t| && t[j].country == k) <==> k in KeyValues(rows, "Country_of_Origin"))
      && (forall i, j :: 0 <= i < j < |t| ==> KeyLess(t[i].country, t[j].country))
      && (forall row :: row in t ==> TaxRowOf(rows, row))
  {
    var t := TaxImpact(rows);
    var ks := GroupKeys(rows, "Country_of_Origin");
    forall k | k in KeyValues(rows, "Country_of_Origin") ensures exists j :: 0 <= j < |t| && t[j].country == k {
      assert k in Elements(ks);
      var j :| 0 <= j < |ks| && ks[j] == k;
      assert t[j].country == k;
    }
    forall k | (exists j :: 0 <= j < |t| && t[j].country == k) ensures k in KeyValues(rows, "Country_of_Origin") {
      var j :| 0 <= j < |t| && t[j].country == k;
      assert ks[j] in Elements(ks);
    }
  }

  /** `row` holds the sums over exactly its country's rows and their percentage. */
  predicate TaxRowOf(rows: seq<Row>, row: TaxRow)
    requires NumberColumn(rows, "Tax_Load") && NumberColumn(rows, "CIF_Value_USD")
  {
    var g := Group(rows, "Country_of_Origin", row.country);
    SelectionNumberColumn(rows, g, "Tax_Load");
    SelectionNumberColumn(rows, g, "CIF_Value_USD");
    && row.taxLoad == ColumnSum(g, "Tax_Load")
    && row.cif == ColumnSum(g, "CIF_Value_USD")
    && row.percent == Percentage(row.taxLoad, row.cif)
  }

  /** A row whose tax load is its rate in [0, 1] times a nonnegative CIF value. */
  predicate TaxedAtRate(r: Row) {
    && NumberAt(r, "Tax_Load") && NumberAt(r, "CIF_Value_USD") && NumberAt(r, "Tax_Rate")
    && 0.0 <= RealAt(r, "Tax_Rate") <= 1.0
    && 0.0 <= RealAt(r, "CIF_Value_USD")
    && RealAt(r, "Tax_Load") == RealAt(r, "Tax_Rate") * RealAt(r, "CIF_Value_USD")
  }

  predicate TaxWithin(r: Row) {
    NumberAt(r, "Tax_Load") && NumberAt(r, "CIF_Value_USD") && 0.0 <= RealAt(r, "Tax_Load") <= RealAt(r, "CIF_Value_USD")
  }

  lemma RowTaxWithinCif(r: Row)
    requires TaxedAtRate(r)
    ensures TaxWithin(r)
  {
    var rate, cif := RealAt(r, "Tax_Rate"), RealAt(r, "CIF_Value_USD");
    assert rate * cif <= 1.0 * cif;
  }

  /** Where every row's tax lies between 0 and its CIF value, so do the sums. */
  lemma {:induction false} TaxWithinCif(rows: seq<Row>)
    requires forall i :: 0 <= i < |rows| ==> TaxWithin(rows[i])
    ensures NumberColumn(rows, "Tax_Load") && NumberColumn(rows, "CIF_Value_USD")
    ensures 0.0 <= ColumnSum(rows, "Tax_Load") <= ColumnSum(rows, "CIF_Value_USD")
  {
    if rows != [] {
      TaxWithinCif(rows[..|rows| - 1]);
    }
  }

  /** The percentage of a tax between 0 and a nonzero CIF value is between 0 and 100. */
  lemma PercentageBounds(tax: real, cif: real)
    requires 0.0 <= tax <= cif
    ensures Percentage(tax, cif).Finite? ==> 0.0 <= Percentage(tax, cif).value <= 100.0
    ensures Percentage(tax, cif).Finite? || Percentage(tax, cif).NaN?
  {
    if cif != 0.0 {
      var q := tax / cif;
      assert q * cif == tax;
      assert (1.0 - q) * cif == cif - tax;
      assert 0.0 <= q <= 1.0;
    }
  }

  /**
   * When every row's tax load is its rate in [0, 1] times a nonnegative CIF value,
   * each country's percentage is within 0..100, or NaN where all its values are 0.
   */
  lemma TaxPercentBounds(rows: seq<Row>)
    requires KeyColumn(rows, "Country_of_Origin")
    requires NumberColumn(rows, "Tax_Load") && NumberColumn(rows, "CIF_Value_USD")
    requires forall i :: 0 <= i < |rows| ==> TaxedAtRate(rows[i])
    ensures forall row :: row in TaxImpact(rows) ==>
      (row.percent.Finite? && 0.0 <= row.percent.value <= 100.0) || row.percent.NaN?
  {
    TaxImpactMeaning(rows);
    forall row | row in TaxImpact(rows)
      ensures (row.percent.Finite? && 0.0 <= row.percent.value <= 100.0) || row.percent.NaN?
    {
      var g := Group(rows, "Country_of_Origin", row.country);
      forall i | 0 <= i < |g| ensures TaxWithin(g[i]) {
        assert g[i] in rows;
        var k :| 0 <= k < |rows| && rows[k] == g[i];
        RowTaxWithinCif(rows[k]);
      }
      TaxWithinCif(g);
      assert TaxRowOf(rows, row);
      PercentageBounds(row.taxLoad, row.cif);
    }
  }

  /** The frame the data loader builds meets the hypothesis of TaxPercentBounds wherever the raw rates lie in [0, 1] and the CIF values are nonnegative. */
  lemma LoadedRowsTaxedAtRate(t: Table)
    requires RawTable(t)
    requires forall i :: 0 <= i < |t.rows| ==>
      0.0 <= RealAt(t.rows[i], "Tax_Rate") <= 1.0 && 0.0 <= RealAt(t.rows[i], "CIF_Value_USD")
    ensures forall i :: 0 <= i < |Derive(t).rows| ==> TaxedAtRate(Derive(t).rows[i])
  {
    DeriveMeaning(t);
    forall i | 0 <= i < |t.rows| ensures TaxedAtRate(Derive(t).rows[i]) {
      DerivedRowTaxedAtRate(t.rows[i]);
    }
  }

  lemma DerivedRowTaxedAtRate(r: Row)
    requires RawRow(r)
    requires 0.0 <= RealAt(r, "Tax_Rate") <= 1.0 && 0.0 <= RealAt(r, "CIF_Value_USD")
    ensures TaxedAtRate(DerivedRow(r))
  {
    DerivedRowMeaning(r);
    var d := DerivedRow(r);
    assert d["Tax_Load"] == Num(Compute(TaxLoad, r));
    assert d["Tax_Rate"] == r["Tax_Rate"] && d["CIF_Value_USD"] == r["CIF_Value_USD"];
  }

  // ---- months (lines 187-196) ----

  /** `datetime(2000, m, 1).strftime('%B')`; the constructor raises for a month outside 1..12. */
  function MonthName(m: int): Option<string> {
    match m
    case 1 => Some("January")
    case 2 => Some("February")
    case 3 => Some("March")
    case 4 => Some("April")
    case 5 => Some("May")
    case 6 => Some("June")
    case 7 => Some("July")
    case 8 => Some("August")
    case 9 => Some("September")
    case 10 => Some("October")
    case 11 => Some("November")
    case 12 => Some("December")
    case _ => None
  }

  /** The category order of lines 190-193. */
  const MONTH_ORDER: seq<string> := [
    "January", "February", "March", "April", "May", "June",
    "July", "August", "September", "October", "November", "December"
  ]

  /** The code pandas gives `v` in a categorical over `cats`: its position, or -1 when it is not a category. */
  function CategoryCode(cats: seq<string>, v: string): (code: int)
    ensures -1 <= code < |cats|
    ensures code == -1 <==> v !in cats
    ensures code >= 0 ==> cats[code] == v && v !in cats[..code]
  {
    if cats == [] then -1
    else if cats[0] == v then 0
    else
      var c := CategoryCode(cats[1..], v);
      assert cats == [cats[0]] + cats[1..];
      if c == -1 then -1
      else
        assert cats[..c + 1] == [cats[0]] + cats[1..][..c];
        c + 1
  }

  /** In a list of distinct categories each category's code is its position. */
  lemma CodeOfCategory(cats: seq<string>, k: int)
    requires Distinct(cats) && 0 <= k < |cats|
    ensures CategoryCode(cats, cats[k]) == k
  {
    var c := CategoryCode(cats, cats[k]);
    assert cats[c] == cats[k];
  }

  lemma MonthOrderDistinct()
    ensures Distinct(MONTH_ORDER)
  {
  }

  /** Exactly months 1..12 have a name, the name is the month's place in the category list, and its code is month - 1. */
  lemma MonthCodes(m: int)
    ensures MonthName(m).Some? <==> 1 <= m <= 12
    ensures 1 <= m <= 12 ==> MonthName(m).value == MONTH_ORDER[m - 1]
    ensures 1 <= m <= 12 ==> CategoryCode(MONTH_ORDER, MonthName(m).value) == m - 1
  {
    if 1 <= m <= 12 {
      MonthNameInOrder(m);
      MonthOrderDistinct();
      CodeOfCategory(MONTH_ORDER, m - 1);
    }
  }

  /** The calendar's name of month m is entry m - 1 of the category list. */
  lemma MonthNameInOrder(m: int)
    requires 1 <= m <= 12
    ensures MonthName(m) == Some(MONTH_ORDER[m - 1])
  {
    match m
    case 1 => case 2 => case 3 => case 4 => case 5 => case 6 =>
    case 7 => case 8 => case 9 => case 10 => case 11 => case 12 =>
  }

  /** Alphabetical order would put August before February; the categorical order puts it after. */
  lemma CalendarNotAlphabetical()
    ensures LexLess(MONTH_ORDER[7], MONTH_ORDER[1])
    ensures CategoryCode(MONTH_ORDER, "August") == 7 && CategoryCode(MONTH_ORDER, "February") == 1
  {
    MonthCodes(8);
    MonthCodes(2);
  }

  predicate MonthsValid(rows: seq<Row>)
    requires IntColumn(rows, "Month")
  {
    forall i :: 0 <= i < |rows| ==> 1 <= rows[i]["Month"].i <= 12
  }

  /** The right-hand side of line 187, or None where one of the months raises. */
  function MonthNames(rows: seq<Row>): (names: Option<seq<Value>>)
    requires IntColumn(rows, "Month")
    ensures names.Some? <==> MonthsValid(rows)
    ensures names.Some? ==> |names.value| == |rows|
  {
    if MonthsValid(rows) then
      Some(seq(|rows|, i requires 0 <= i < |rows| =>
        MonthCodes(rows[i]["Month"].i);
        Str(MonthName(rows[i]["Month"].i).value)))
    else None
  }

  /** The right-hand side of line 194: each name as a categorical over the month order. */
  function MonthCategories(names: seq<Value>): (cats: seq<Value>)
    requires forall i :: 0 <= i < |names| ==> names[i].Str?
    ensures |cats| == |names|
  {
    seq(|names|, i requires 0 <= i < |names| => Cat(CategoryCode(MONTH_ORDER, names[i].s), MONTH_ORDER))
  }

  /** The Month_Name column the two assignments leave: month m becomes category m - 1 of the month order. */
  function MonthColumn(rows: seq<Row>): (vs: seq<Value>)
    requires IntColumn(rows, "Month")
    ensures |vs| == |rows|
  {
    seq(|rows|, i requires 0 <= i < |rows| => Cat(rows[i]["Month"].i - 1, MONTH_ORDER))
  }

  /**
   * Lines 187-194, in place. When every month is in 1..12 the frame gains the
   * Month_Name column of category codes month - 1; otherwise the first
   * assignment raises before anything changes.
   */
  method AddMonthName(df: Frame) returns (ok: bool)
    requires df.Valid() && IntColumn(df.rows, "Month")
    modifies df
    ensures ok <==> MonthsValid(old(df.rows))
    ensures df.Valid()
    ensures ok ==> df.Snapshot() == AssignColumn(old(df.Snapshot()), "Month_Name", MonthColumn(old(df.rows)))
    ensures !ok ==> df.Snapshot() == old(df.Snapshot())
  {
    var names := MonthNames(df.rows);
    if names.None? {
      return false;
    }
    ghost var t := df.Snapshot();
    df.SetColumn("Month_Name", names.value);
    var categories := MonthCategories(names.value);
    df.SetColumn("Month_Name", categories);
    AssignTwice(t, "Month_Name", names.value, categories);
    NamesThenCategories(t.rows);
    ok := true;
  }

  /** Naming the months and then reading the names as categories gives each month the code month - 1. */
  lemma NamesThenCategories(rows: seq<Row>)
    requires IntColumn(rows, "Month") && MonthsValid(rows)
    ensures MonthCategories(MonthNames(rows).value) == MonthColumn(rows)
  {
    var categories := MonthCategories(MonthNames(rows).value);
    forall i | 0 <= i < |rows| ensures categories[i] == MonthColumn(rows)[i] {
      MonthCodes(rows[i]["Month"].i);
    }
  }

  /** One row of the monthly table: a year, a month category and the CIF total. */
  datatype MonthlyRow = MonthlyRow(year: Value, month: Value, total: real)

  function InYearMonth(year: Value, month: Value): Row -> bool {
    r => "Year" in r && r["Year"] == year && "Month_Name" in r && r["Month_Name"] == month
  }

  /**
   * Line 196: `df.groupby(['Year', 'Month_Name'])['CIF_Value_USD'].sum()`. With
   * a categorical key pandas lists every category for every year present, even
   * with no rows (`observed=False`); the sum of no rows is 0.
   */
  function MonthlyTrend(rows: seq<Row>): seq<MonthlyRow>
    requires KeyColumn(rows, "Year") && NumberColumn(rows, "CIF_Value_USD")
  {
    MonthlyTable(rows, GroupKeys(rows, "Year"))
  }

  /** Twelve entries, one per month category, for each year of `years` in turn. */
  function MonthlyTable(rows: seq<Row>, years: seq<Value>): (trend: seq<MonthlyRow>)
    requires NumberColumn(rows, "CIF_Value_USD")
    ensures |trend| == 12 * |years|
  {
    seq(12 * |years|, p requires 0 <= p < 12 * |years| =>
      var y := years[p / 12];
      var m := Cat(p % 12, MONTH_ORDER);
      MonthlyRow(y, m, MonthTotal(rows, y, m)))
  }

  /** The CIF total of the rows of one year and month; 0 when there are none. */
  function MonthTotal(rows: seq<Row>, year: Value, month: Value): real
    requires NumberColumn(rows, "CIF_Value_USD")
  {
    SelectionNumberColumn(rows, Filter(rows, InYearMonth(year, month)), "CIF_Value_USD");
    ColumnSum(Filter(rows, InYearMonth(year, month)), "CIF_Value_USD")
  }

  /** Position p of the year-by-month table is month p % 12 of the (p / 12)-th year. */
  lemma TableIndex(p: int, q: int, years: nat)
    requires 0 <= p < q < 12 * years
    ensures 0 <= p / 12 <= q / 12 < years
    ensures p / 12 < q / 12 || p % 12 < q % 12
  {
    assert p == 12 * (p / 12) + p % 12 && 0 <= p % 12 < 12;
    assert q == 12 * (q / 12) + q % 12 && 0 <= q % 12 < 12;
  }

  /** Month c of the j-th year sits at position 12 * j + c. */
  lemma TableSlot(j: nat, c: int)
    requires 0 <= c < 12
    ensures (12 * j + c) / 12 == j && (12 * j + c) % 12 == c
  {
    var p := 12 * j + c;
    assert p == 12 * (p / 12) + p % 12 && 0 <= p % 12 < 12;
  }

  /** Position 12 * j + c of the table holds month c of the j-th year. */
  lemma MonthlyTableAt(rows: seq<Row>, years: seq<Value>, j: nat, c: int)
    requires NumberColumn(rows, "CIF_Value_USD")
    requires j < |years| && 0 <= c < 12
    ensures 12 * j + c < |MonthlyTable(rows, years)|
    ensures MonthlyTable(rows, years)[12 * j + c]
      == MonthlyRow(years[j], Cat(c, MONTH_ORDER), MonthTotal(rows, years[j], Cat(c, MONTH_ORDER)))
  {
    TableSlot(j, c);
  }

  /** Every year present appears with each of the twelve month categories and that month's total. */
  lemma MonthlyTrendCovers(rows: seq<Row>)
    requires KeyColumn(rows, "Year") && NumberColumn(rows, "CIF_Value_USD")
    ensures forall y, c :: y in KeyValues(rows, "Year") && 0 <= c < 12 ==>
      MonthlyRow(y, Cat(c, MONTH_ORDER), MonthTotal(rows, y, Cat(c, MONTH_ORDER))) in MonthlyTrend(rows)
  {
    var years := GroupKeys(rows, "Year");
    var trend := MonthlyTable(rows, years);
    assert MonthlyTrend(rows) == trend;
    forall y, c | y in KeyValues(rows, "Year") && 0 <= c < 12
      ensures MonthlyRow(y, Cat(c, MONTH_ORDER), MonthTotal(rows, y, Cat(c, MONTH_ORDER))) in trend
    {
      assert y in Elements(years);
      var j :| 0 <= j < |years| && years[j] == y;
      MonthlyTableAt(rows, years, j, c);
    }
  }

  /**
   * The table has twelve entries per year present and nothing else: each entry is
   * a year present with a month category of the calendar order.
   */
  lemma MonthlyTrendEntries(rows: seq<Row>)
    requires KeyColumn(rows, "Year") && NumberColumn(rows, "CIF_Value_USD")
    ensures var trend := MonthlyTrend(rows);
      && |trend| == 12 * |KeyValues(rows, "Year")|
      && forall p :: 0 <= p < |trend| ==>
           && trend[p].year in KeyValues(rows, "Year")
           && trend[p].month.Cat? && 0 <= trend[p].month.code < 12 && trend[p].month.categories == MONTH_ORDER
  {
    var years := GroupKeys(rows, "Year");
    IncreasingCount(years);
    MonthlyTableEntries(rows, years);
  }

  lemma MonthlyTableEntries(rows: seq<Row>, years: seq<Value>)
    requires NumberColumn(rows, "CIF_Value_USD")
    ensures var trend := MonthlyTable(rows, years);
      forall p :: 0 <= p < |trend| ==>
        && trend[p].year in Elements(years)
        && trend[p].month.Cat? && 0 <= trend[p].month.code < 12 && trend[p].month.categories == MONTH_ORDER
  {
    var trend := MonthlyTable(rows, years);
    forall p | 0 <= p < |trend| ensures trend[p].year in Elements(years) {
      assert years[p / 12] in years;
    }
  }

  /** Each total sums exactly the rows of its year and month, and is 0 for a month with no rows. */
  lemma MonthlyTrendTotals(rows: seq<Row>)
    requires KeyColumn(rows, "Year") && NumberColumn(rows, "CIF_Value_USD")
    ensures var trend := MonthlyTrend(rows);
      forall p :: 0 <= p < |trend| ==>
        && NumberColumn(Filter(rows, InYearMonth(trend[p].year, trend[p].month)), "CIF_Value_USD")
        && trend[p].total == ColumnSum(Filter(rows, InYearMonth(trend[p].year, trend[p].month)), "CIF_Value_USD")
  {
    MonthlyTableTotals(rows, GroupKeys(rows, "Year"));
  }

  lemma MonthlyTableTotals(rows: seq<Row>, years: seq<Value>)
    requires NumberColumn(rows, "CIF_Value_USD")
    ensures var trend := MonthlyTable(rows, years);
      forall p :: 0 <= p < |trend| ==>
        && NumberColumn(Filter(rows, InYearMonth(trend[p].year, trend[p].month)), "CIF_Value_USD")
        && trend[p].total == ColumnSum(Filter(rows, InYearMonth(trend[p].year, trend[p].month)), "CIF_Value_USD")
  {
    var trend := MonthlyTable(rows, years);
    forall p | 0 <= p < |trend|
      ensures NumberColumn(Filter(rows, InYearMonth(trend[p].year, trend[p].month)), "CIF_Value_USD")
    {
      SelectionNumberColumn(rows, Filter(rows, InYearMonth(trend[p].year, trend[p].month)), "CIF_Value_USD");
    }
  }

  /** Years in increasing order and, within a year, months in calendar order. */
  lemma MonthlyTrendOrder(rows: seq<Row>)
    requires KeyColumn(rows, "Year") && NumberColumn(rows, "CIF_Value_USD")
    ensures var trend := MonthlyTrend(rows);
      forall p, q :: 0 <= p < q < |trend| ==>
        || KeyLess(trend[p].year, trend[q].year)
        || (trend[p].year == trend[q].year && trend[p].month.code < trend[q].month.code)
  {
    MonthlyTableOrder(rows, GroupKeys(rows, "Year"));
  }

  lemma MonthlyTableOrder(rows: seq<Row>, years: seq<Value>)
    requires NumberColumn(rows, "CIF_Value_USD") && StrictlyIncreasing(years)
    ensures var trend := MonthlyTable(rows, years);
      forall p, q :: 0 <= p < q < |trend| ==>
        || KeyLess(trend[p].year, trend[q].year)
        || (trend[p].year == trend[q].year && trend[p].month.code < trend[q].month.code)
  {
    var trend := MonthlyTable(rows, years);
    forall p, q | 0 <= p < q < |trend|
      ensures || KeyLess(trend[p].year, trend[q].year)
              || (trend[p].year == trend[q].year && trend[p].month.code < trend[q].month.code)
    {
      TableIndex(p, q, |years|);
    }
  }

  /** The mask `(df['Year'] == year) & (df['Month'] == month)` on the month number. */
  function InYearMonthNumber(year: Value, month: int): Row -> bool {
    (r: Row) => "Year" in r && r["Year"] == year && IntAt(r, "Month") && r["Month"].i == month
  }

  /**
   * On the frame AddMonthName leaves, the total of month category c in a year
   * sums exactly the rows of that year whose Month is c + 1.
   */
  lemma MonthTotalByNumber(t: Table, year: Value, c: int)
    requires IntColumn(t.rows, "Month") && NumberColumn(t.rows, "CIF_Value_USD")
    ensures var p := AssignColumn(t, "Month_Name", MonthColumn(t.rows));
      && NumberColumn(p.rows, "CIF_Value_USD")
      && NumberColumn(Filter(t.rows, InYearMonthNumber(year, c + 1)), "CIF_Value_USD")
      && MonthTotal(p.rows, year, Cat(c, MONTH_ORDER)) == ColumnSum(Filter(t.rows, InYearMonthNumber(year, c + 1)), "CIF_Value_USD")
  {
    var p := AssignColumn(t, "Month_Name", MonthColumn(t.rows));
    forall i | 0 <= i < |p.rows|
      ensures NumberAt(p.rows[i], "CIF_Value_USD") && RealAt(p.rows[i], "CIF_Value_USD") == RealAt(t.rows[i], "CIF_Value_USD")
      ensures InYearMonth(year, Cat(c, MONTH_ORDER))(p.rows[i]) <==> InYearMonthNumber(year, c + 1)(t.rows[i])
    {
      assert p.rows[i]["Month_Name"] == Cat(t.rows[i]["Month"].i - 1, MONTH_ORDER);
    }
    FilterSumsAgree(p.rows, t.rows, InYearMonth(year, Cat(c, MONTH_ORDER)), InYearMonthNumber(year, c + 1), "CIF_Value_USD");
  }

  /** A chart point whose total is the CIF sum of the rows of its year whose Month is its category's code plus one. */
  predicate MonthSumByNumber(rows: seq<Row>, e: MonthlyRow)
    requires NumberColumn(rows, "CIF_Value_USD")
  {
    && e.month.Cat?
    && var g := Filter(rows, InYearMonthNumber(e.year, e.month.code + 1));
       SelectionNumberColumn(rows, g, "CIF_Value_USD");
       e.total == ColumnSum(g, "CIF_Value_USD")
  }

  /**
   * Lines 187-196 together: each point of the monthly chart drawn from the frame
   * AddMonthName leaves is the CIF total of the rows of its year whose Month is
   * its category's code plus one.
   */
  lemma MonthlyChartTotals(t: Table)
    requires KeyColumn(t.rows, "Year") && IntColumn(t.rows, "Month") && NumberColumn(t.rows, "CIF_Value_USD")
    ensures var p := AssignColumn(t, "Month_Name", MonthColumn(t.rows));
      && KeyColumn(p.rows, "Year") && NumberColumn(p.rows, "CIF_Value_USD")
      && var trend := MonthlyTrend(p.rows);
         forall q :: 0 <= q < |trend| ==> MonthSumByNumber(t.rows, trend[q])
  {
    var p := AssignColumn(t, "Month_Name", MonthColumn(t.rows));
    forall i | 0 <= i < |p.rows| ensures "Year" in p.rows[i] && p.rows[i]["Year"] == t.rows[i]["Year"] {
    }
    var ks := GroupKeys(p.rows, "Year");
    assert MonthlyTrend(p.rows) == MonthlyTable(p.rows, ks);
    MonthlyTableByNumber(t, ks);
  }

  lemma MonthlyTableByNumber(t: Table, years: seq<Value>)
    requires IntColumn(t.rows, "Month") && NumberColumn(t.rows, "CIF_Value_USD")
    ensures var p := AssignColumn(t, "Month_Name", MonthColumn(t.rows));
      && NumberColumn(p.rows, "CIF_Value_USD")
      && forall q :: 0 <= q < 12 * |years| ==> MonthSumByNumber(t.rows, MonthlyTable(p.rows, years)[q])
  {
    MonthTotalByNumber(t, Int(0), 0);
    forall q | 0 <= q < 12 * |years|
      ensures MonthSumByNumber(t.rows, MonthlyTable(AssignColumn(t, "Month_Name", MonthColumn(t.rows)).rows, years)[q])
    {
      MonthlyEntryByNumber(t, years, q);
    }
  }

  lemma MonthlyEntryByNumber(t: Table, years: seq<Value>, q: int)
    requires IntColumn(t.rows, "Month") && NumberColumn(t.rows, "CIF_Value_USD")
    requires 0 <= q < 12 * |years|
    ensures var p := AssignColumn(t, "Month_Name", MonthColumn(t.rows));
      && NumberColumn(p.rows, "CIF_Value_USD")
      && MonthSumByNumber(t.rows, MonthlyTable(p.rows, years)[q])
  {
    var p := AssignColumn(t, "Month_Name", MonthColumn(t.rows));
    var j, c := q / 12, q % 12;
    assert q == 12 * j + c && j < |years|;
    MonthTotalByNumber(t, years[j], c);
    MonthlySlotByNumber(p.rows, t.rows, years, j, c);
  }

  lemma MonthlySlotByNumber(named: seq<Row>, rows: seq<Row>, years: seq<Value>, j: nat, c: int)
    requires NumberColumn(named, "CIF_Value_USD") && NumberColumn(rows, "CIF_Value_USD")
    requires j < |years| && 0 <= c < 12
    requires NumberColumn(Filter(rows, InYearMonthNumber(years[j], c + 1)), "CIF_Value_USD")
    requires MonthTotal(named, years[j], Cat(c, MONTH_ORDER))
      == ColumnSum(Filter(rows, InYearMonthNumber(years[j], c + 1)), "CIF_Value_USD")
    ensures 12 * j + c < |MonthlyTable(named, years)|
    ensures MonthSumByNumber(rows, MonthlyTable(named, years)[12 * j + c])
  {
    MonthlyTableAt(named, years, j, c);
  }

  // ---- the yearly summary (lines 208-212) ----

  /** One row of the yearly table. */
  datatype YearSummary = YearSummary(year: Value, totalCif: real, meanUnitPrice: real, totalTaxLoad: real)

  predicate YearColumns(rows: seq<Row>) {
    && KeyColumn(rows, "Year")
    && NumberColumn(rows, "CIF_Value_USD") && NumberColumn(rows, "Unit_Price_UGX") && NumberColumn(rows, "Tax_Load")
  }

  /** `df.groupby('Year').agg(CIF_Value_USD='sum', Unit_Price_UGX='mean', Tax_Load='sum')`. */
  function YearlyAggregate(rows: seq<Row>): seq<YearSummary>
    requires YearColumns(rows)
  {
    YearlyTable(rows, GroupKeys(rows, "Year"))
  }

  /** One summary row per key of `years`, each a year some row has. */
  function YearlyTable(rows: seq<Row>, years: seq<Value>): (y: seq<YearSummary>)
    requires YearColumns(rows) && Elements(years) <= KeyValues(rows, "Year")
    ensures |y| == |years|
  {
    seq(|years|, j requires 0 <= j < |years| => (assert years[j] in Elements(years); YearOf(rows, years[j])))
  }

  /** The aggregates of one year's rows; their group is never empty, so the mean is defined. */
  function YearOf(rows: seq<Row>, year: Value): YearSummary
    requires YearColumns(rows) && year in KeyValues(rows, "Year")
  {
    var g := Group(rows, "Year", year);
    GroupNonEmpty(rows, "Year", year);
    SelectionNumberColumn(rows, g, "CIF_Value_USD");
    SelectionNumberColumn(rows, g, "Unit_Price_UGX");
    SelectionNumberColumn(rows, g, "Tax_Load");
    YearSummary(year, ColumnSum(g, "CIF_Value_USD"), ColumnSum(g, "Unit_Price_UGX") / (|g| as real), ColumnSum(g, "Tax_Load"))
  }

  /** One row per distinct year, in increasing order. */
  lemma YearlyAggregateKeys(rows: seq<Row>)
    requires YearColumns(rows)
    ensures var y := YearlyAggregate(rows);
      && |y| == |KeyValues(rows, "Year")|
      && (forall k :: (exists j :: 0 <= j < |y| && y[j].year == k) <==> k in KeyValues(rows, "Year"))
      && (forall i, j :: 0 <= i < j < |y| ==> KeyLess(y[i].year, y[j].year))
  {
    var ks := GroupKeys(rows, "Year");
    assert YearlyAggregate(rows) == YearlyTable(rows, ks);
    IncreasingCount(ks);
    YearlyTableKeys(rows, ks);
  }

  lemma YearlyTableKeys(rows: seq<Row>, years: seq<Value>)
    requires YearColumns(rows) && Elements(years) <= KeyValues(rows, "Year")
    ensures var y := YearlyTable(rows, years);
      && (forall j :: 0 <= j < |y| ==> y[j].year == years[j])
      && (forall k :: (exists j :: 0 <= j < |y| && y[j].year == k) <==> k in Elements(years))
  {
    var y := YearlyTable(rows, years);
    forall k | k in Elements(years) ensures exists j :: 0 <= j < |y| && y[j].year == k {
      var j :| 0 <= j < |years| && years[j] == k;
      assert y[j].year == k;
    }
  }

  /**
   * The CIF and tax-load totals are the per-year sums of those columns, and the
   * CIF totals add up to the frame's total.
   */
  lemma YearlyAggregateTotals(rows: seq<Row>)
    requires YearColumns(rows)
    ensures var y := YearlyAggregate(rows);
      && |y| == |GroupSums(rows, "Year", "CIF_Value_USD")|
      && (forall j :: 0 <= j < |y| ==> GroupSums(rows, "Year", "CIF_Value_USD")[j] == (y[j].year, y[j].totalCif))
      && (forall j :: 0 <= j < |y| ==> GroupSums(rows, "Year", "Tax_Load")[j] == (y[j].year, y[j].totalTaxLoad))
      && SumOfSums(GroupSums(rows, "Year", "CIF_Value_USD")) == ColumnSum(rows, "CIF_Value_USD")
  {
    var ks := GroupKeys(rows, "Year");
    assert YearlyAggregate(rows) == YearlyTable(rows, ks);
    GroupSumsTotal(rows, "Year", "CIF_Value_USD");
  }

  /** Each summary row is the aggregate of its own year's rows. */
  lemma YearlyAggregateRows(rows: seq<Row>)
    requires YearColumns(rows)
    ensures var y := YearlyAggregate(rows);
      forall j :: 0 <= j < |y| ==> y[j].year in KeyValues(rows, "Year") && y[j] == YearOf(rows, y[j].year)
  {
    var ks := GroupKeys(rows, "Year");
    assert YearlyAggregate(rows) == YearlyTable(rows, ks);
    YearlyTableKeys(rows, ks);
  }

  /**
   * A year's aggregates: the CIF and tax-load sums over exactly that year's rows,
   * and a mean unit price that times the (nonzero) row count gives their unit-price sum.
   */
  lemma YearOfMeaning(rows: seq<Row>, year: Value)
    requires YearColumns(rows) && year in KeyValues(rows, "Year")
    ensures var s, g := YearOf(rows, year), Group(rows, "Year", year);
      && s.year == year && |g| > 0
      && NumberColumn(g, "CIF_Value_USD") && NumberColumn(g, "Unit_Price_UGX") && NumberColumn(g, "Tax_Load")
      && s.totalCif == ColumnSum(g, "CIF_Value_USD")
      && s.totalTaxLoad == ColumnSum(g, "Tax_Load")
      && s.meanUnitPrice * (|g| as real) == ColumnSum(g, "Unit_Price_UGX")
  {
    var g := Group(rows, "Year", year);
    GroupNonEmpty(rows, "Year", year);
    SelectionNumberColumn(rows, g, "CIF_Value_USD");
    SelectionNumberColumn(rows, g, "Unit_Price_UGX");
    SelectionNumberColumn(rows, g, "Tax_Load");
    MeanTimesCount(ColumnSum(g, "Unit_Price_UGX"), |g|);
  }

  lemma MeanTimesCount(sum: real, n: nat)
    requires n > 0
    ensures sum / (n as real) * (n as real) == sum
  {
  }
}
