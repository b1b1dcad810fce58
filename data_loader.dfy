/**
 * The dataset side of the dashboard (utils/data_loader.py): the six per-row
 * features load_data adds to the frame it reads, the column drop of
 * preprocess_data, and the feature schema the column transformer is set up with.
 * Floats are modelled as reals, so the equalities proved here are exact.
 */
module DataLoader {
  import opened Frames

  /** The constant added to every gross-mass divisor (1e-6). */
  const EPSILON: real := 1.0 / 1000000.0

  /** `amount / (gross_mass + 1e-6)`. The one divisor reals cannot take is gross_mass = -1e-6. */
  function PerKg(amount: real, grossMass: real): real
    requires grossMass + EPSILON != 0.0
  {
    amount / (grossMass + EPSILON)
  }

  /** For every mass at or above zero the divisor is positive, and the ratio scales back to the amount. */
  lemma PerKgTotal(amount: real, grossMass: real)
    requires grossMass >= 0.0
    ensures grossMass + EPSILON > 0.0
    ensures PerKg(amount, grossMass) * (grossMass + EPSILON) == amount
  {
  }

  /** The columns of the CSV that the derivations read, each a number, with a usable gross-mass divisor. */
  predicate RawRow(r: Row) {
    && NumberAt(r, "CIF_Value_USD")
    && NumberAt(r, "Gross_Mass_kg")
    && NumberAt(r, "Tax_Rate")
    && NumberAt(r, "Year")
    && NumberAt(r, "Month")
    && NumberAt(r, "FOB_Value_USD")
    && NumberAt(r, "Freight_USD")
    && NumberAt(r, "Insurance_USD")
    && RealAt(r, "Gross_Mass_kg") + EPSILON != 0.0
  }

  predicate RawRows(rows: seq<Row>) {
    forall i :: 0 <= i < |rows| ==> RawRow(rows[i])
  }

  predicate RawTable(t: Table) {
    RawRows(t.rows)
  }

  /** The six columns load_data assigns, in the order of its statements. */
  datatype Feature = ValueDensity | TaxLoad | ImportDuration | FobPerKg | FreightPerKg | InsurancePerKg

  function Name(f: Feature): string {
    match f
    case ValueDensity => "Value_Density"
    case TaxLoad => "Tax_Load"
    case ImportDuration => "Import_Duration"
    case FobPerKg => "FOB_per_kg"
    case FreightPerKg => "Freight_per_kg"
    case InsurancePerKg => "Insurance_per_kg"
  }

  const FEATURE_NAMES: set<string> :=
    {"Value_Density", "Tax_Load", "Import_Duration", "FOB_per_kg", "Freight_per_kg", "Insurance_per_kg"}

  /** The value load_data computes for feature `f` from the raw cells of one row. */
  function Compute(f: Feature, r: Row): real
    requires RawRow(r)
  {
    var mass := RealAt(r, "Gross_Mass_kg");
    match f
    case ValueDensity => PerKg(RealAt(r, "CIF_Value_USD"), mass)
    case TaxLoad => RealAt(r, "Tax_Rate") * RealAt(r, "CIF_Value_USD")
    case ImportDuration => RealAt(r, "Year") + RealAt(r, "Month") / 12.0
    case FobPerKg => PerKg(RealAt(r, "FOB_Value_USD"), mass)
    case FreightPerKg => PerKg(RealAt(r, "Freight_USD"), mass)
    case InsurancePerKg => PerKg(RealAt(r, "Insurance_USD"), mass)
  }

  /** One assignment `df[name] = ...` seen from a single row. */
  function StepRow(r: Row, f: Feature): Row
    requires RawRow(r)
  {
    r[Name(f) := Num(Compute(f, r))]
  }

  /** Writing a derived column never touches a raw column, so the row stays raw and computes the same features. */
  lemma StepRowKeepsRaw(r: Row, f: Feature)
    requires RawRow(r)
    ensures RawRow(StepRow(r, f))
    ensures forall g :: Compute(g, StepRow(r, f)) == Compute(g, r)
  {
  }

  /** The vectorised right-hand side of one of the six assignments. */
  function FeatureColumn(f: Feature, rows: seq<Row>): (vs: seq<Value>)
    requires RawRows(rows)
    ensures |vs| == |rows|
    ensures forall i :: 0 <= i < |rows| ==> vs[i] == Num(Compute(f, rows[i]))
  {
    seq(|rows|, i requires 0 <= i < |rows| => Num(Compute(f, rows[i])))
  }

  /** The rows after one statement `df[name] = ...`: each row gets its own value of the feature. */
  function StepRows(rows: seq<Row>, f: Feature): (r: seq<Row>)
    requires RawRows(rows)
    ensures |r| == |rows| && RawRows(r)
  {
    forall i | 0 <= i < |rows| ensures RawRow(StepRow(rows[i], f)) {
      StepRowKeepsRaw(rows[i], f);
    }
    seq(|rows|, i requires 0 <= i < |rows| => StepRow(rows[i], f))
  }

  /** The column list after the six statements: each name is appended unless it is already a column. */
  function DerivedColumns(columns: seq<string>): seq<string> {
    WithName(WithName(WithName(WithName(WithName(WithName(columns,
      "Value_Density"), "Tax_Load"), "Import_Duration"), "FOB_per_kg"), "Freight_per_kg"), "Insurance_per_kg")
  }

  /** The existing columns keep their order at the front. */
  lemma DerivedColumnsOrder(columns: seq<string>)
    ensures columns <= DerivedColumns(columns)
  {
  }

  /** The derived list holds the original names and the six feature names, and nothing else. */
  lemma DerivedColumnsNames(columns: seq<string>)
    ensures Elements(DerivedColumns(columns)) == Elements(columns) + FEATURE_NAMES
  {
    var c1 := WithName(columns, "Value_Density");
    var c2 := WithName(c1, "Tax_Load");
    var c3 := WithName(c2, "Import_Duration");
    var c4 := WithName(c3, "FOB_per_kg");
    var c5 := WithName(c4, "Freight_per_kg");
    assert Elements(c5) == Elements(columns) + {"Value_Density", "Tax_Load", "Import_Duration", "FOB_per_kg", "Freight_per_kg"};
  }

  /** No name is duplicated. */
  lemma DerivedColumnsDistinct(columns: seq<string>)
    requires Distinct(columns)
    ensures Distinct(DerivedColumns(columns))
  {
  }

  /** A list that already holds the six names is left as it is. */
  lemma DerivedColumnsPresent(columns: seq<string>)
    requires FEATURE_NAMES <= Elements(columns)
    ensures DerivedColumns(columns) == columns
  {
  }

  /** One raw row after the six assignments. */
  function DerivedRow(r: Row): (d: Row)
    requires RawRow(r)
    ensures RawRow(d)
    ensures forall g :: Compute(g, d) == Compute(g, r)
  {
    StepRowKeepsRaw(r, ValueDensity);
    var r1 := StepRow(r, ValueDensity);
    StepRowKeepsRaw(r1, TaxLoad);
    var r2 := StepRow(r1, TaxLoad);
    StepRowKeepsRaw(r2, ImportDuration);
    var r3 := StepRow(r2, ImportDuration);
    StepRowKeepsRaw(r3, FobPerKg);
    var r4 := StepRow(r3, FobPerKg);
    StepRowKeepsRaw(r4, FreightPerKg);
    var r5 := StepRow(r4, FreightPerKg);
    StepRowKeepsRaw(r5, InsurancePerKg);
    StepRow(r5, InsurancePerKg)
  }

  function DerivedRows(rows: seq<Row>): (r: seq<Row>)
    requires RawRows(rows)
    ensures |r| == |rows| && RawRows(r)
  {
    seq(|rows|, i requires 0 <= i < |rows| => DerivedRow(rows[i]))
  }

  /** The frame load_data returns for the CSV contents `t`: the six assignments of lines 14-19 in order. */
  function Derive(t: Table): (r: Table)
    requires RawTable(t)
    ensures RawTable(r)
  {
    Table(DerivedColumns(t.columns), DerivedRows(t.rows))
  }

  /** The six statements one after the other give the derived columns. */
  lemma SixColumnSteps(columns: seq<string>)
    ensures WithName(WithName(WithName(WithName(WithName(WithName(columns,
      Name(ValueDensity)), Name(TaxLoad)), Name(ImportDuration)), Name(FobPerKg)), Name(FreightPerKg)), Name(InsurancePerKg))
      == DerivedColumns(columns)
  {
  }

  /** The six statements one after the other give the derived rows. */
  lemma SixSteps(rows: seq<Row>)
    requires RawRows(rows)
    ensures StepRows(StepRows(StepRows(StepRows(StepRows(StepRows(rows, ValueDensity), TaxLoad), ImportDuration), FobPerKg), FreightPerKg), InsurancePerKg)
      == DerivedRows(rows)
  {
  }

  /** The feature a derived column name belongs to: the inverse of Name on the six names. */
  function FeatureOf(c: string): (f: Feature)
    requires c in FEATURE_NAMES
    ensures Name(f) == c
  {
    if c == "Value_Density" then ValueDensity
    else if c == "Tax_Load" then TaxLoad
    else if c == "Import_Duration" then ImportDuration
    else if c == "FOB_per_kg" then FobPerKg
    else if c == "Freight_per_kg" then FreightPerKg
    else InsurancePerKg
  }

  /** Name and FeatureOf are inverse bijections between the six features and the six names. */
  lemma NamesAreFeatureNames()
    ensures forall f :: Name(f) in FEATURE_NAMES && FeatureOf(Name(f)) == f
    ensures forall f, g :: Name(f) == Name(g) ==> f == g
  {
    forall f ensures Name(f) in FEATURE_NAMES && FeatureOf(Name(f)) == f {
      match f
      case ValueDensity =>
      case TaxLoad =>
      case ImportDuration =>
      case FobPerKg =>
      case FreightPerKg =>
      case InsurancePerKg =>
    }
  }

  /**
   * A raw row after load_data: exactly the six features are added or
   * overwritten, each equal to its formula over the raw cells; every other cell is kept.
   */
  lemma DerivedRowMeaning(r: Row)
    requires RawRow(r)
    ensures DerivedRow(r).Keys == r.Keys + FEATURE_NAMES
    ensures forall c :: c in r && c !in FEATURE_NAMES ==> DerivedRow(r)[c] == r[c]
    ensures forall f :: Name(f) in DerivedRow(r) && DerivedRow(r)[Name(f)] == Num(Compute(f, r))
  {
    var r1 := StepRow(r, ValueDensity);
    StepRowKeepsRaw(r, ValueDensity);
    var r2 := StepRow(r1, TaxLoad);
    StepRowKeepsRaw(r1, TaxLoad);
    var r3 := StepRow(r2, ImportDuration);
    StepRowKeepsRaw(r2, ImportDuration);
    var r4 := StepRow(r3, FobPerKg);
    StepRowKeepsRaw(r3, FobPerKg);
    var r5 := StepRow(r4, FreightPerKg);
    StepRowKeepsRaw(r4, FreightPerKg);
    StepRowKeepsRaw(r5, InsurancePerKg);
    var d := StepRow(r5, InsurancePerKg);
    assert d == DerivedRow(r);
    forall f ensures Name(f) in d && d[Name(f)] == Num(Compute(f, r)) {
      match f
      case ValueDensity =>
      case TaxLoad =>
      case ImportDuration =>
      case FobPerKg =>
      case FreightPerKg =>
      case InsurancePerKg =>
    }
  }

  /**
   * What load_data does to the frame: the row count is kept, every row is its
   * derived row, and the existing columns keep their order with the six names
   * added after them where they were missing.
   */
  lemma DeriveMeaning(t: Table)
    requires RawTable(t)
    ensures |Derive(t).rows| == |t.rows|
    ensures forall i :: 0 <= i < |t.rows| ==> Derive(t).rows[i] == DerivedRow(t.rows[i])
    ensures t.columns <= Derive(t).columns
    ensures Elements(Derive(t).columns) == Elements(t.columns) + FEATURE_NAMES
  {
    DeriveRows(t);
    DeriveColumns(t);
  }

  lemma DeriveRows(t: Table)
    requires RawTable(t)
    ensures |Derive(t).rows| == |t.rows|
    ensures forall i :: 0 <= i < |t.rows| ==> Derive(t).rows[i] == DerivedRow(t.rows[i])
  {
    DerivedRowsAt(t.rows);
    assert Derive(t).rows == DerivedRows(t.rows);
  }

  lemma DerivedRowsAt(rows: seq<Row>)
    requires RawRows(rows)
    ensures forall i :: 0 <= i < |rows| ==> DerivedRows(rows)[i] == DerivedRow(rows[i])
  {
  }

  lemma DeriveColumns(t: Table)
    requires RawTable(t)
    ensures t.columns <= Derive(t).columns
    ensures Elements(Derive(t).columns) == Elements(t.columns) + FEATURE_NAMES
  {
    assert Derive(t).columns == DerivedColumns(t.columns);
    DerivedColumnsOrder(t.columns);
    DerivedColumnsNames(t.columns);
  }

  /** A well-formed frame stays well formed: distinct column names, each row holding exactly them. */
  lemma DeriveWellFormed(t: Table)
    requires RawTable(t) && WellFormed(t)
    ensures WellFormed(Derive(t))
  {
    DeriveMeaning(t);
    DerivedColumnsDistinct(t.columns);
    forall i | 0 <= i < |t.rows| ensures Derive(t).rows[i].Keys == Elements(Derive(t).columns) {
      DerivedRowMeaning(t.rows[i]);
    }
  }

  /**
   * When a row's CIF value is the sum of its FOB, freight and insurance values,
   * the three per-kg ratios add up to its value density.
   */
  lemma RatiosSumToDensity(r: Row)
    requires RawRow(r)
    requires RealAt(r, "CIF_Value_USD") == RealAt(r, "FOB_Value_USD") + RealAt(r, "Freight_USD") + RealAt(r, "Insurance_USD")
    ensures Compute(FobPerKg, r) + Compute(FreightPerKg, r) + Compute(InsurancePerKg, r) == Compute(ValueDensity, r)
  {
    var d := RealAt(r, "Gross_Mass_kg") + EPSILON;
    var a, b, c := RealAt(r, "FOB_Value_USD"), RealAt(r, "Freight_USD"), RealAt(r, "Insurance_USD");
    assert a / d + b / d + c / d == (a + b + c) / d;
  }

  /** A raw row that already carries its own features is left as it is. */
  lemma DerivedRowFixpoint(r: Row)
    requires RawRow(r)
    requires forall f :: Name(f) in r && r[Name(f)] == Num(Compute(f, r))
    ensures DerivedRow(r) == r
  {
    DerivedRowMeaning(r);
    forall c | c in FEATURE_NAMES ensures c in r && DerivedRow(r)[c] == r[c] {
      assert Name(FeatureOf(c)) in r;
    }
  }

  /** The features are pure functions of the raw cells: deriving a second time changes nothing. */
  lemma DeriveIdempotent(t: Table)
    requires RawTable(t)
    ensures Derive(Derive(t)) == Derive(t)
  {
    var d := Derive(t);
    DeriveMeaning(t);
    DerivedColumnsPresent(d.columns);
    DerivedRowsIdempotent(t.rows);
    assert d.rows == DerivedRows(t.rows);
  }

  /** Deriving the rows a second time changes none of them. */
  lemma DerivedRowsIdempotent(rows: seq<Row>)
    requires RawRows(rows)
    ensures DerivedRows(DerivedRows(rows)) == DerivedRows(rows)
  {
    var d := DerivedRows(rows);
    forall i | 0 <= i < |d| ensures DerivedRow(d[i]) == d[i] {
      DerivedRowIdempotent(rows[i]);
    }
  }

  /** A derived row already carries its own features, so deriving it again leaves it as it is. */
  lemma DerivedRowIdempotent(r: Row)
    requires RawRow(r)
    ensures DerivedRow(DerivedRow(r)) == DerivedRow(r)
  {
    DerivedRowMeaning(r);
    DerivedRowFixpoint(DerivedRow(r));
  }

  /** One of the statements of lines 14-19: `df[name] = <formula over the raw columns>`. */
  method AssignFeature(df: Frame, f: Feature)
    requires df.Valid() && RawRows(df.rows)
    modifies df
    ensures df.Valid()
    ensures df.columns == WithName(old(df.columns), Name(f))
    ensures df.rows == StepRows(old(df.rows), f)
  {
    df.SetColumn(Name(f), FeatureColumn(f, df.rows));
  }

  /** `load_data()`: the frame read from the CSV, changed in place by the six assignments. */
  method DeriveFeatures(df: Frame)
    requires df.Valid() && RawTable(df.Snapshot())
    modifies df
    ensures df.Valid() && df.Snapshot() == Derive(old(df.Snapshot()))
  {
    ghost var columns, rows := df.columns, df.rows;
    SixColumnSteps(columns);
    AssignFeature(df, ValueDensity);
    AssignFeature(df, TaxLoad);
    AssignFeature(df, ImportDuration);
    AssignFeature(df, FobPerKg);
    AssignFeature(df, FreightPerKg);
    AssignFeature(df, InsurancePerKg);
    SixSteps(rows);
  }

  /** `load_data()` with the CSV contents given as a table. */
  method LoadData(csv: Table) returns (df: Frame)
    requires WellFormed(csv) && RawTable(csv)
    ensures fresh(df) && df.Valid() && df.Snapshot() == Derive(csv)
  {
    df := new Frame(csv);
    DeriveFeatures(df);
  }

  // ---- preprocess_data ----

  const TO_DROP: seq<string> := ["CIF_Value_UGX", "Invoice_Amount", "Value_per_kg", "Value_per_unit", "Date"]

  /** The column list without the names in `names`, in its original order. */
  function Without(columns: seq<string>, names: seq<string>): (r: seq<string>)
    ensures Elements(r) == Elements(columns) - Elements(names)
    ensures |r| <= |columns|
  {
    if columns == [] then []
    else
      var front := columns[..|columns| - 1];
      var last := columns[|columns| - 1];
      var r := if last in names then Without(front, names) else Without(front, names) + [last];
      assert columns == front + [last];
      assert Elements(columns) == Elements(front) + {last};
      assert Elements(r) == Elements(Without(front, names)) + (if last in names then {} else {last});
      r
  }

  lemma {:induction false} WithoutAppend(a: seq<string>, b: seq<string>, names: seq<string>)
    ensures Without(a + b, names) == Without(a, names) + Without(b, names)
    decreases |b|
  {
    if b == [] {
      assert a + b == a;
    } else {
      var b' := b[..|b| - 1];
      assert (a + b)[..|a + b| - 1] == a + b';
      assert (a + b)[|a + b| - 1] == b[|b| - 1];
      WithoutAppend(a, b', names);
    }
  }

  lemma {:induction false} WithoutNone(columns: seq<string>, names: seq<string>)
    requires Elements(columns) !! Elements(names)
    ensures Without(columns, names) == columns
  {
    if columns != [] {
      var front := columns[..|columns| - 1];
      var last := columns[|columns| - 1];
      assert columns == front + [last];
      assert last in Elements(columns);
      assert Elements(front) <= Elements(columns);
      WithoutNone(front, names);
    }
  }

  lemma {:induction false} WithoutDistinct(columns: seq<string>, names: seq<string>)
    requires Distinct(columns)
    ensures Distinct(Without(columns, names))
  {
    if columns != [] {
      var front := columns[..|columns| - 1];
      var last := columns[|columns| - 1];
      assert columns == front + [last];
      assert Distinct(front);
      WithoutDistinct(front, names);
      assert last !in Elements(front);
      assert last !in Elements(Without(front, names));
    }
  }

  /** `frame.drop(columns=names, errors='ignore')`. */
  function Drop(t: Table, names: seq<string>): (r: Table)
    ensures r.columns == Without(t.columns, names)
    ensures |r.rows| == |t.rows|
    ensures forall i :: 0 <= i < |r.rows| ==> r.rows[i] == t.rows[i] - Elements(names)
  {
    Table(Without(t.columns, names), seq(|t.rows|, i requires 0 <= i < |t.rows| => t.rows[i] - Elements(names)))
  }

  /**
   * Dropping removes exactly the named columns that are present, keeps the other
   * columns in order with their cells, keeps the frame well formed, and a name
   * that is absent changes nothing (the drop never fails).
   */
  lemma DropMeaning(t: Table, names: seq<string>)
    requires WellFormed(t)
    ensures WellFormed(Drop(t, names))
    ensures Elements(Drop(t, names).columns) == Elements(t.columns) - Elements(names)
    ensures forall i, c :: 0 <= i < |t.rows| && c in t.rows[i] && c !in names ==> c in Drop(t, names).rows[i] && Drop(t, names).rows[i][c] == t.rows[i][c]
    ensures Elements(t.columns) !! Elements(names) ==> Drop(t, names) == t
  {
    WithoutDistinct(t.columns, names);
    if Elements(t.columns) !! Elements(names) {
      WithoutNone(t.columns, names);
      var r := Drop(t, names);
      forall i | 0 <= i < |t.rows| ensures r.rows[i] == t.rows[i] {
        assert t.rows[i].Keys !! Elements(names);
      }
    }
  }

  /** `preprocess_data(data)`: it ignores `data` and drops the unused columns from a fresh `load_data()`. */
  method PreprocessData(csv: Table, data: Table) returns (processed: Table)
    requires WellFormed(csv) && RawTable(csv)
    ensures processed == Drop(Derive(csv), TO_DROP)
  {
    var df := LoadData(csv);
    processed := Drop(df.Snapshot(), TO_DROP);
  }

  // ---- the schema the column transformer is built over ----

  const NUMERIC_FEATURES: seq<string> := [
    "Quantity", "Net_Mass_kg", "Gross_Mass_kg",
    "FOB_Value_USD", "Freight_USD", "Insurance_USD",
    "CIF_Value_USD", "Tax_Rate", "Tax_Load",
    "Import_Duration", "Value_Density",
    "FOB_per_kg", "Freight_per_kg", "Insurance_per_kg"
  ]

  const CATEGORICAL_FEATURES: seq<string> := [
    "HS_Code", "Country_of_Origin", "Port_of_Shipment",
    "Quantity_Unit", "Currency_Code", "Mode_of_Transport",
    "Valuation_Method", "Item_Description"
  ]

  /** The two feature lists have 14 and 8 names, no duplicates, and no name in common. */
  lemma SchemaListsWellFormed()
    ensures |NUMERIC_FEATURES| == 14 && |CATEGORICAL_FEATURES| == 8
    ensures Distinct(NUMERIC_FEATURES) && Distinct(CATEGORICAL_FEATURES)
    ensures Distinct(NUMERIC_FEATURES + CATEGORICAL_FEATURES)
    ensures Elements(NUMERIC_FEATURES) !! Elements(CATEGORICAL_FEATURES)
  {
  }

  /** Every derived feature is one of the numeric features the transformer scales. */
  lemma DerivedFeaturesAreNumericFeatures()
    ensures forall f :: Name(f) in NUMERIC_FEATURES
  {
  }
}
