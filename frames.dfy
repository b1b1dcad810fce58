/**
 * The in-memory table the dashboard works on: a data frame is an ordered list of
 * distinct column names and a sequence of rows, each row a map from column name
 * to a cell value. Cells are tagged: an integer, a real number (the model of a
 * float), a string, or a pandas categorical (a category code into an ordered list
 * of categories, -1 for a value that is not one of them).
 */
module Frames {

  datatype Value =
    | Int(i: int)
    | Num(r: real)
    | Str(s: string)
    | Cat(code: int, categories: seq<string>)

  type Row = map<string, Value>

  datatype Table = Table(columns: seq<string>, rows: seq<Row>)

  predicate Distinct<T(==)>(s: seq<T>) {
    forall i, j :: 0 <= i < j < |s| ==> s[i] != s[j]
  }

  function Elements<T>(s: seq<T>): set<T> {
    set x | x in s
  }

  /** Every frame pandas builds: distinct column names, and every row has exactly those columns. */
  predicate WellFormed(t: Table) {
    && Distinct(t.columns)
    && forall i :: 0 <= i < |t.rows| ==> t.rows[i].Keys == Elements(t.columns)
  }

  predicate IsNumber(v: Value) {
    v.Int? || v.Num?
  }

  /** The numeric value of an int or float cell. */
  function AsReal(v: Value): real
    requires IsNumber(v)
  {
    if v.Int? then v.i as real else v.r
  }

  predicate NumberAt(r: Row, c: string) {
    c in r && IsNumber(r[c])
  }

  function RealAt(r: Row, c: string): real
    requires NumberAt(r, c)
  {
    AsReal(r[c])
  }

  predicate IntAt(r: Row, c: string) {
    c in r && r[c].Int?
  }

  predicate NumberColumn(rows: seq<Row>, c: string) {
    forall i :: 0 <= i < |rows| ==> NumberAt(rows[i], c)
  }

  predicate IntColumn(rows: seq<Row>, c: string) {
    forall i :: 0 <= i < |rows| ==> IntAt(rows[i], c)
  }

  predicate HasColumn(rows: seq<Row>, c: string) {
    forall i :: 0 <= i < |rows| ==> c in rows[i]
  }

  /** pandas' column order after `df[name] = ...`: an existing column keeps its place, a new one goes last. */
  function WithName(columns: seq<string>, name: string): (r: seq<string>)
    ensures name in r
    ensures Elements(r) == Elements(columns) + {name}
    ensures Distinct(columns) ==> Distinct(r)
    ensures columns <= r
    ensures name in columns ==> r == columns
  {
    if name in columns then columns else columns + [name]
  }

  /**
   * The frame after `df[name] = values`: row i gets values[i] under `name`,
   * every other cell stays as it was, and the frame's shape is kept.
   */
  function AssignColumn(t: Table, name: string, values: seq<Value>): (r: Table)
    requires |values| == |t.rows|
    ensures r.columns == WithName(t.columns, name)
    ensures |r.rows| == |t.rows|
    ensures forall i :: 0 <= i < |r.rows| ==> r.rows[i].Keys == t.rows[i].Keys + {name}
    ensures forall i :: 0 <= i < |r.rows| ==> r.rows[i][name] == values[i]
    ensures forall i, c :: 0 <= i < |r.rows| && c in t.rows[i] && c != name ==> r.rows[i][c] == t.rows[i][c]
    ensures WellFormed(t) ==> WellFormed(r)
  {
    Table(WithName(t.columns, name), seq(|t.rows|, i requires 0 <= i < |t.rows| => t.rows[i][name := values[i]]))
  }

  /** Assigning the same column twice leaves only the second assignment. */
  lemma AssignTwice(t: Table, name: string, first: seq<Value>, second: seq<Value>)
    requires |first| == |t.rows| && |second| == |t.rows|
    ensures AssignColumn(AssignColumn(t, name, first), name, second) == AssignColumn(t, name, second)
  {
    var a := AssignColumn(AssignColumn(t, name, first), name, second);
    var b := AssignColumn(t, name, second);
    assert a.columns == b.columns;
    forall i | 0 <= i < |t.rows| ensures a.rows[i] == b.rows[i] {
    }
    assert a.rows == b.rows;
  }

  /** A pandas data frame that the source changes in place, one column at a time. */
  class Frame {
    var columns: seq<string>
    var rows: seq<Row>

    function Snapshot(): Table
      reads this
    {
      Table(columns, rows)
    }

    predicate Valid()
      reads this
    {
      WellFormed(Snapshot())
    }

    constructor (t: Table)
      requires WellFormed(t)
      ensures Valid() && Snapshot() == t
    {
      columns := t.columns;
      rows := t.rows;
    }

    /** `df[name] = values`. */
    method SetColumn(name: string, values: seq<Value>)
      requires Valid() && |values| == |rows|
      modifies this
      ensures Valid()
      ensures Snapshot() == AssignColumn(old(Snapshot()), name, values)
    {
      var t := AssignColumn(Snapshot(), name, values);
      columns, rows := t.columns, t.rows;
    }
  }

  /** The rows of `rows` that satisfy `keep`, in their original order (a boolean-mask selection). */
  function Filter(rows: seq<Row>, keep: Row -> bool): (kept: seq<Row>)
    ensures |kept| <= |rows|
    ensures forall r :: r in kept <==> r in rows && keep(r)
  {
    if rows == [] then []
    else
      var front := Filter(rows[..|rows| - 1], keep);
      var last := rows[|rows| - 1];
      assert rows == rows[..|rows| - 1] + [last];
      if keep(last) then front + [last] else front
  }

  /** Selection distributes over concatenation, so the kept rows keep their relative order. */
  lemma {:induction false} FilterAppend(a: seq<Row>, b: seq<Row>, keep: Row -> bool)
    ensures Filter(a + b, keep) == Filter(a, keep) + Filter(b, keep)
    decreases |b|
  {
    if b == [] {
      assert a + b == a;
    } else {
      var b' := b[..|b| - 1];
      assert (a + b)[..|a + b| - 1] == a + b';
      assert (a + b)[|a + b| - 1] == b[|b| - 1];
      FilterAppend(a, b', keep);
    }
  }

  /** A selection whose mask holds on every row keeps the whole sequence. */
  lemma {:induction false} FilterAll(rows: seq<Row>, keep: Row -> bool)
    requires forall i :: 0 <= i < |rows| ==> keep(rows[i])
    ensures Filter(rows, keep) == rows
  {
    if rows != [] {
      FilterAll(rows[..|rows| - 1], keep);
      assert rows == rows[..|rows| - 1] + [rows[|rows| - 1]];
    }
  }

  /** A selection whose mask holds on no row keeps nothing. */
  lemma {:induction false} FilterNone(rows: seq<Row>, keep: Row -> bool)
    requires forall i :: 0 <= i < |rows| ==> !keep(rows[i])
    ensures Filter(rows, keep) == []
  {
    if rows != [] {
      FilterNone(rows[..|rows| - 1], keep);
    }
  }

  /** `rows[column].sum()`; the sum of no rows is 0. */
  function ColumnSum(rows: seq<Row>, column: string): real
    requires NumberColumn(rows, column)
  {
    if rows == [] then 0.0
    else ColumnSum(rows[..|rows| - 1], column) + RealAt(rows[|rows| - 1], column)
  }

  lemma {:induction false} ColumnSumAppend(a: seq<Row>, b: seq<Row>, column: string)
    requires NumberColumn(a, column) && NumberColumn(b, column)
    ensures NumberColumn(a + b, column)
    ensures ColumnSum(a + b, column) == ColumnSum(a, column) + ColumnSum(b, column)
    decreases |b|
  {
    if b == [] {
      assert a + b == a;
    } else {
      var b' := b[..|b| - 1];
      assert (a + b)[..|a + b| - 1] == a + b';
      ColumnSumAppend(a, b', column);
    }
  }
}
