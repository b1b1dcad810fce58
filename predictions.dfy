/**
 * The unit-price predictor page (app/pages/predictions.py, the body run after
 * the form is submitted): the YYYYMM split, the derived features, the one-row
 * record with its three fixed categorical defaults, the selection of the
 * columns the fitted preprocessor expects, and the single catch-all error
 * branch. The fitted preprocessor and regressor are foreign code; they appear
 * here as the functions `transform` and `predict`, either of which may fail.
 */
module Predictions {
  import opened Wrappers
  import opened Frames
  import opened DataLoader

  /** The values the form collects (lines 20-34); the tax rate is entered as a percentage. */
  datatype Form = Form(
    hsCode: string,
    itemDescription: string,
    countryOfOrigin: string,
    portOfShipment: string,
    quantityUnit: string,
    quantity: int,
    netMass: real,
    grossMass: real,
    fobValue: real,
    freight: real,
    insurance: real,
    taxPercent: real,
    yearMonth: int)

  /** The bounds the number widgets enforce on what they hand back. */
  predicate WithinWidgetBounds(form: Form) {
    && form.quantity >= 1
    && form.netMass >= 1.0 / 10.0
    && form.grossMass >= 1.0 / 10.0
    && form.fobValue >= 0.0
    && form.freight >= 0.0
    && form.insurance >= 0.0
    && 0.0 <= form.taxPercent <= 100.0
    && 202301 <= form.yearMonth <= 203012
  }

  /** `tax_rate`: the percentage divided by 100. */
  function TaxRate(form: Form): (rate: real)
    ensures 0.0 <= form.taxPercent <= 100.0 ==> 0.0 <= rate <= 1.0
    ensures rate * 100.0 == form.taxPercent
  {
    form.taxPercent / 100.0
  }

  /**
   * `year_month // 100` and `year_month % 100`. Python rounds `//` down and gives
   * `%` the divisor's sign; with the positive divisor 100 that is Dafny's
   * Euclidean division, for negative inputs too.
   */
  function SplitYearMonth(yearMonth: int): (ym: (int, int))
    ensures ym.0 * 100 + ym.1 == yearMonth
    ensures 0 <= ym.1 < 100
  {
    (yearMonth / 100, yearMonth % 100)
  }

  /** Any year and two-digit month joined as YYYYMM split back into themselves. */
  lemma SplitJoin(year: int, month: int)
    requires 0 <= month < 100
    ensures SplitYearMonth(year * 100 + month) == (year, month)
  {
    var ym := SplitYearMonth(year * 100 + month);
    assert (ym.0 - year) * 100 == month - ym.1;
  }

  /** Within the widget's range the year is 2023..2030; the month is only known to be 0..99. */
  lemma SplitBounds(yearMonth: int)
    requires 202301 <= yearMonth <= 203012
    ensures 2023 <= SplitYearMonth(yearMonth).0 <= 2030
    ensures 0 <= SplitYearMonth(yearMonth).1 <= 99
  {
    var ym := SplitYearMonth(yearMonth);
    assert 202301 <= ym.0 * 100 + ym.1 <= 203012;
  }

  /** Nothing checks the month: 202313 and 202400 are accepted and give months 13 and 0. */
  lemma MonthNotValidated()
    ensures SplitYearMonth(202313) == (2023, 13)
    ensures SplitYearMonth(202400) == (2024, 0)
  {
    SplitJoin(2023, 13);
    SplitJoin(2024, 0);
  }

  /** `import_duration = year + month / 12` (true division). */
  function DurationOf(yearMonth: int): real {
    var ym := SplitYearMonth(yearMonth);
    ym.0 as real + ym.1 as real / 12.0
  }

  /** Because the month is not checked, two different inputs give the same import duration. */
  lemma ImportDurationCollides()
    ensures DurationOf(202313) == DurationOf(202401)
  {
    MonthNotValidated();
    SplitJoin(2024, 1);
  }

  /** `fob_value + freight + insurance`, the CIF value the record carries. */
  function Cif(form: Form): real {
    form.fobValue + form.freight + form.insurance
  }

  /** The names of the columns of `input_data`, in the order of the dict literal (lines 52-75). */
  const RECORD_COLUMNS: seq<string> := [
    "HS_Code", "Item_Description", "Country_of_Origin", "Port_of_Shipment",
    "Quantity_Unit", "Quantity", "Net_Mass_kg", "Gross_Mass_kg",
    "FOB_Value_USD", "Freight_USD", "Insurance_USD", "CIF_Value_USD",
    "Tax_Rate", "Mode_of_Transport", "Currency_Code", "Valuation_Method",
    "Year", "Month", "FOB_per_kg", "Freight_per_kg",
    "Insurance_per_kg", "Value_Density", "Tax_Load", "Import_Duration"
  ]

  /** The one record of `input_data` (lines 41-76). */
  function Record(form: Form): Row
    requires form.grossMass + EPSILON != 0.0
  {
    var ym := SplitYearMonth(form.yearMonth);
    var cif := Cif(form);
    var rate := TaxRate(form);
    map[
      "HS_Code" := Str(form.hsCode),
      "Item_Description" := Str(form.itemDescription),
      "Country_of_Origin" := Str(form.countryOfOrigin),
      "Port_of_Shipment" := Str(form.portOfShipment),
      "Quantity_Unit" := Str(form.quantityUnit),
      "Quantity" := Int(form.quantity),
      "Net_Mass_kg" := Num(form.netMass),
      "Gross_Mass_kg" := Num(form.grossMass),
      "FOB_Value_USD" := Num(form.fobValue),
      "Freight_USD" := Num(form.freight),
      "Insurance_USD" := Num(form.insurance),
      "CIF_Value_USD" := Num(cif),
      "Tax_Rate" := Num(rate),
      "Mode_of_Transport" := Str("AIR"),
      "Currency_Code" := Str("USD"),
      "Valuation_Method" := Str("CIF"),
      "Year" := Int(ym.0),
      "Month" := Int(ym.1),
      "FOB_per_kg" := Num(PerKg(form.fobValue, form.grossMass)),
      "Freight_per_kg" := Num(PerKg(form.freight, form.grossMass)),
      "Insurance_per_kg" := Num(PerKg(form.insurance, form.grossMass)),
      "Value_Density" := Num(PerKg(cif, form.grossMass)),
      "Tax_Load" := Num(cif * rate),
      "Import_Duration" := Num(DurationOf(form.yearMonth))
    ]
  }

  /** `pd.DataFrame([record])`: one row, the columns in the literal's order. */
  function InputData(form: Form): (t: Table)
    requires form.grossMass + EPSILON != 0.0
    ensures |t.rows| == 1
  {
    Table(RECORD_COLUMNS, [Record(form)])
  }

  /** The literal names 24 distinct columns. */
  lemma RecordColumnsDistinct()
    ensures |RECORD_COLUMNS| == 24 && Distinct(RECORD_COLUMNS)
  {
  }

  /** The record's keys are exactly the literal's names. */
  lemma RecordKeys(form: Form)
    requires form.grossMass + EPSILON != 0.0
    ensures Record(form).Keys == Elements(RECORD_COLUMNS)
  {
  }

  /** So `input_data` is a proper frame. */
  lemma InputDataWellFormed(form: Form)
    requires form.grossMass + EPSILON != 0.0
    ensures WellFormed(InputData(form))
  {
    RecordColumnsDistinct();
    RecordKeys(form);
  }

  /** The six derived names are among the record's columns. */
  lemma FeatureNamesInRecord()
    ensures FEATURE_NAMES <= Elements(RECORD_COLUMNS)
  {
  }

  /** Whatever was chosen on the form, the three defaulted fields are always AIR, USD and CIF. */
  lemma DefaultsAreFixed(form: Form, other: Form)
    requires form.grossMass + EPSILON != 0.0 && other.grossMass + EPSILON != 0.0
    ensures Record(form)["Mode_of_Transport"] == Record(other)["Mode_of_Transport"] == Str("AIR")
    ensures Record(form)["Currency_Code"] == Record(other)["Currency_Code"] == Str("USD")
    ensures Record(form)["Valuation_Method"] == Record(other)["Valuation_Method"] == Str("CIF")
  {
  }

  /**
   * The record is a raw dataset row whose derived cells are exactly what load_data
   * would compute from its raw cells: the page and the loader use the same formulas.
   */
  lemma RecordMatchesLoader(form: Form)
    requires form.grossMass + EPSILON != 0.0
    ensures RawRow(Record(form))
    ensures forall f :: Name(f) in Record(form) && Record(form)[Name(f)] == Num(Compute(f, Record(form)))
  {
    var r := Record(form);
    assert RawRow(r);
    forall f ensures Name(f) in r && r[Name(f)] == Num(Compute(f, r)) {
      match f
      case ValueDensity =>
      case TaxLoad =>
        assert RealAt(r, "Tax_Rate") * RealAt(r, "CIF_Value_USD") == Cif(form) * TaxRate(form);
      case ImportDuration =>
      case FobPerKg =>
      case FreightPerKg =>
      case InsurancePerKg =>
    }
  }

  /** Running load_data's derivation over `input_data` changes nothing. */
  lemma InputDataIsDerived(form: Form)
    requires form.grossMass + EPSILON != 0.0
    ensures RawTable(InputData(form))
    ensures Derive(InputData(form)) == InputData(form)
  {
    var t := InputData(form);
    RecordMatchesLoader(form);
    DerivedRowFixpoint(Record(form));
    FeatureNamesInRecord();
    DerivedColumnsPresent(RECORD_COLUMNS);
    assert DerivedRows(t.rows) == t.rows;
  }

  /** Every divisor of the page is positive for the masses the widget allows. */
  lemma DivisorsPositive(form: Form)
    requires WithinWidgetBounds(form)
    ensures form.grossMass + EPSILON > 0.0
  {
  }

  /** The names of `names` that `columns` lacks, in the order of `names`. */
  function Missing(columns: seq<string>, names: seq<string>): (r: seq<string>)
    ensures forall x :: x in r <==> x in names && x !in columns
    ensures |r| <= |names|
  {
    if names == [] then []
    else
      var front := Missing(columns, names[..|names| - 1]);
      var last := names[|names| - 1];
      assert names == names[..|names| - 1] + [last];
      if last in columns then front else front + [last]
  }

  /** A row cut down to the cells whose names are in `names`. */
  function Restrict(r: Row, names: seq<string>): (s: Row)
    ensures s.Keys == r.Keys * Elements(names)
    ensures forall c :: c in s ==> s[c] == r[c]
  {
    map c | c in r.Keys * Elements(names) :: r[c]
  }

  /**
   * `frame[names]`: a frame with exactly the columns `names`, in that order, and
   * each row's values unchanged; any absent name raises, reported here with the
   * absent names.
   */
  function SelectColumns(t: Table, names: seq<string>): (r: Result<Table, seq<string>>)
    ensures r.Err? <==> exists x :: x in names && x !in t.columns
    ensures r.Err? ==> r.error == Missing(t.columns, names) && |r.error| > 0
    ensures r.Ok? ==> r.value.columns == names && |r.value.rows| == |t.rows|
    ensures r.Ok? ==> forall i :: 0 <= i < |t.rows| ==> r.value.rows[i] == Restrict(t.rows[i], names)
  {
    var missing := Missing(t.columns, names);
    if missing != [] then
      assert missing[0] in names && missing[0] !in t.columns;
      Err(missing)
    else
      Ok(Table(names, seq(|t.rows|, i requires 0 <= i < |t.rows| => Restrict(t.rows[i], names))))
  }

  /** Selecting distinct names that a well-formed frame has yields a well-formed frame holding the same cells. */
  lemma SelectColumnsMeaning(t: Table, names: seq<string>)
    requires WellFormed(t) && Distinct(names) && Elements(names) <= Elements(t.columns)
    ensures SelectColumns(t, names).Ok?
    ensures WellFormed(SelectColumns(t, names).value)
    ensures forall i, c :: 0 <= i < |t.rows| && c in names ==>
      c in SelectColumns(t, names).value.rows[i] && SelectColumns(t, names).value.rows[i][c] == t.rows[i][c]
  {
    forall x | x in names ensures x in t.columns {
      assert x in Elements(names);
    }
  }

  /** The model's input matrix, produced by the fitted preprocessor. */
  type Matrix = seq<seq<real>>

  /**
   * The two ways the submit handler ends: a price (`prediction[0]`), or the
   * catch-all branch, which shows the expected columns and those of `input_data`
   * as it stood when the exception was raised.
   */
  datatype Outcome =
    | Predicted(price: real)
    | Failed(required: seq<string>, provided: seq<string>)

  /**
   * Lines 38-91. `required` is `preprocessor.feature_names_in_`; `transform` and
   * `predict` stand for the fitted preprocessor and regressor, each returning
   * None where it would raise. An empty prediction fails at `[0]`.
   */
  function PredictPrice(form: Form, required: seq<string>,
                        transform: Table -> Option<Matrix>,
                        predict: Matrix -> Option<seq<real>>): (o: Outcome)
    requires WithinWidgetBounds(form)
    ensures o.Failed? ==> o.required == required
  {
    var input := InputData(form);
    match SelectColumns(input, required)
    case Err(_) => Failed(required, input.columns)
    case Ok(selected) =>
      match transform(selected)
      case None => Failed(required, selected.columns)
      case Some(processed) =>
        match predict(processed)
        case None => Failed(required, selected.columns)
        case Some(prediction) =>
          if |prediction| == 0 then Failed(required, selected.columns)
          else Predicted(prediction[0])
  }

  /**
   * A missing expected column always ends in the error branch, whatever the
   * preprocessor and the model would do, and the branch then shows the
   * record's own 24 columns.
   */
  lemma MissingColumnFails(form: Form, required: seq<string>,
                           transform: Table -> Option<Matrix>,
                           predict: Matrix -> Option<seq<real>>)
    requires WithinWidgetBounds(form)
    requires exists x :: x in required && x !in RECORD_COLUMNS
    ensures PredictPrice(form, required, transform, predict) == Failed(required, RECORD_COLUMNS)
  {
  }

  /**
   * When every expected column is in the record, the selection succeeds; the
   * preprocessor sees exactly the expected columns with the record's values, the
   * price is the model's first output, and any failure shows the expected
   * columns as the provided ones.
   */
  lemma CoveredSchemaPredicts(form: Form, required: seq<string>,
                              transform: Table -> Option<Matrix>,
                              predict: Matrix -> Option<seq<real>>)
    requires WithinWidgetBounds(form)
    requires Elements(required) <= Elements(RECORD_COLUMNS)
    ensures SelectColumns(InputData(form), required).Ok?
    ensures var selected := SelectColumns(InputData(form), required).value;
      && selected.columns == required
      && |selected.rows| == 1
      && selected.rows[0] == Restrict(Record(form), required)
      && (match transform(selected)
          case Some(m) =>
            (match predict(m)
             case Some(p) =>
               PredictPrice(form, required, transform, predict) ==
                 (if |p| > 0 then Predicted(p[0]) else Failed(required, required))
             case None => PredictPrice(form, required, transform, predict) == Failed(required, required))
          case None => PredictPrice(form, required, transform, predict) == Failed(required, required))
  {
    forall y | y in required ensures y in RECORD_COLUMNS {
      assert y in Elements(required);
    }
  }

  /**
   * The two feature lists of utils/data_loader.py, numeric first. The model takes
   * them as the columns the saved preprocessor expects; its fitted names come from
   * the saved artifact, so that is an assumption of the model.
   */
  const SCHEMA: seq<string> := NUMERIC_FEATURES + CATEGORICAL_FEATURES

  /** The record holds every name of both feature lists, so selecting them cannot fail, and only Year and Month are left out. */
  lemma RecordCoversSchema()
    ensures Elements(SCHEMA) <= Elements(RECORD_COLUMNS)
    ensures Elements(RECORD_COLUMNS) - Elements(SCHEMA) == {"Year", "Month"}
  {
  }

  /**
   * The form's default numbers (1000 + 200 + 100 USD, 0.17 kg gross, 18 %,
   * January 2024) give CIF 1300, tax rate 0.18, tax load 234, year 2024 and month 1.
   */
  lemma DefaultFormRecord(form: Form)
    requires form.fobValue == 1000.0 && form.freight == 200.0 && form.insurance == 100.0
    requires form.grossMass == 17.0 / 100.0 && form.taxPercent == 18.0 && form.yearMonth == 202401
    ensures Record(form)["CIF_Value_USD"] == Num(1300.0)
    ensures Record(form)["Tax_Rate"] == Num(18.0 / 100.0)
    ensures Record(form)["Tax_Load"] == Num(234.0)
    ensures Record(form)["Year"] == Int(2024) && Record(form)["Month"] == Int(1)
    ensures Record(form)["Import_Duration"] == Num(2024.0 + 1.0 / 12.0)
  {
    SplitJoin(2024, 1);
  }
}
