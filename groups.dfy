/**
 * The pandas operations the reports are built from: `groupby(key)` with its
 * default sorted keys, the sum of a column over each group, and the two
 * descending orders the charts use (`nlargest`, and `sort_values` with
 * `ascending=False`).
 */
module Groups {
  import opened Frames
  import opened Text

  /** The kinds of group key the reports use: integers (Year) and strings. */
  predicate IsKey(v: Value) {
    v.Int? || v.Str?
  }

  /** The order of sorted group keys: integers by value, strings by code point. */
  predicate KeyLess(a: Value, b: Value) {
    if a.Int? && b.Int? then a.i < b.i
    else if a.Str? && b.Str? then LexLess(a.s, b.s)
    else a.Int? && b.Str?
  }

  /** KeyLess is a strict total order on keys. */
  lemma KeyOrder(a: Value, b: Value, c: Value)
    requires IsKey(a) && IsKey(b) && IsKey(c)
    ensures !KeyLess(a, a)
    ensures a != b <==> KeyLess(a, b) || KeyLess(b, a)
    ensures !(KeyLess(a, b) && KeyLess(b, a))
    ensures KeyLess(a, b) && KeyLess(b, c) ==> KeyLess(a, c)
  {
    if a.Str? {
      LexIrreflexive(a.s);
    }
    if a.Str? && b.Str? {
      LexTotal(a.s, b.s);
      if b.s == a.s {
        LexIrreflexive(a.s);
      }
    }
    if a.Str? && b.Str? && c.Str? && KeyLess(a, b) && KeyLess(b, c) {
      LexTransitive(a.s, b.s, c.s);
    }
  }

  predicate Keys(ks: seq<Value>) {
    forall i :: 0 <= i < |ks| ==> IsKey(ks[i])
  }

  predicate StrictlyIncreasing(ks: seq<Value>) {
    forall i, j :: 0 <= i < j < |ks| ==> KeyLess(ks[i], ks[j])
  }

  /** Every row has a key of a usable kind under `key`. */
  predicate KeyColumn(rows: seq<Row>, key: string) {
    forall i :: 0 <= i < |rows| ==> key in rows[i] && IsKey(rows[i][key])
  }

  /** The distinct values of the key column. */
  function KeyValues(rows: seq<Row>, key: string): set<Value>
    requires HasColumn(rows, key)
  {
    set i | 0 <= i < |rows| :: rows[i][key]
  }

  /** A key below every key of a sorted list can be put in front of it. */
  lemma ConsIncreasing(x: Value, xs: seq<Value>)
    requires Keys(xs) && StrictlyIncreasing(xs) && IsKey(x)
    requires forall j :: 0 <= j < |xs| ==> KeyLess(x, xs[j])
    ensures Keys([x] + xs) && StrictlyIncreasing([x] + xs)
    ensures Elements([x] + xs) == {x} + Elements(xs)
  {
    var r := [x] + xs;
    forall i, j | 0 <= i < j < |r| ensures KeyLess(r[i], r[j]) {
      assert r[j] == xs[j - 1];
      if i > 0 {
        assert r[i] == xs[i - 1];
      }
    }
  }

  /** The head of a sorted list is below every key of its tail, so below any list of those keys and one larger key. */
  lemma AboveHead(h: Value, tail: seq<Value>, k: Value, rest: seq<Value>)
    requires StrictlyIncreasing([h] + tail) && KeyLess(h, k)
    requires Elements(rest) == Elements(tail) + {k}
    ensures forall j :: 0 <= j < |rest| ==> KeyLess(h, rest[j])
  {
    forall j | 0 <= j < |rest| ensures KeyLess(h, rest[j]) {
      assert rest[j] in Elements(rest);
      if rest[j] != k {
        var m :| 0 <= m < |tail| && tail[m] == rest[j];
        var all := [h] + tail;
        assert all[0] == h && all[m + 1] == tail[m];
        assert KeyLess(all[0], all[m + 1]);
      }
    }
  }

  /** A sorted list of distinct keys with `k` added in its place. */
  function Insert(ks: seq<Value>, k: Value): (r: seq<Value>)
    requires Keys(ks) && StrictlyIncreasing(ks) && IsKey(k)
    ensures Keys(r) && StrictlyIncreasing(r)
    ensures Elements(r) == Elements(ks) + {k}
  {
    if ks == [] then [k]
    else if ks[0] == k then ks
    else if KeyLess(k, ks[0]) then
      forall j | 0 <= j < |ks| ensures KeyLess(k, ks[j]) {
        if j > 0 {
          assert KeyLess(ks[0], ks[j]);
          KeyOrder(k, ks[0], ks[j]);
        }
      }
      ConsIncreasing(k, ks);
      [k] + ks
    else
      var tail := ks[1..];
      assert ks == [ks[0]] + tail;
      var rest := Insert(tail, k);
      KeyOrder(k, ks[0], k);
      AboveHead(ks[0], tail, k, rest);
      ConsIncreasing(ks[0], rest);
      assert Elements(ks) == {ks[0]} + Elements(tail);
      [ks[0]] + rest
  }

  /** The keys of `df.groupby(key)`: each distinct key value once, in increasing order. */
  function GroupKeys(rows: seq<Row>, key: string): (ks: seq<Value>)
    requires KeyColumn(rows, key)
    ensures Keys(ks) && StrictlyIncreasing(ks)
    ensures Elements(ks) == KeyValues(rows, key)
  {
    if rows == [] then []
    else
      var front := rows[..|rows| - 1];
      var ks := Insert(GroupKeys(front, key), rows[|rows| - 1][key]);
      assert KeyValues(rows, key) == KeyValues(front, key) + {rows[|rows| - 1][key]} by {
        forall v | v in KeyValues(rows, key) ensures v in KeyValues(front, key) + {rows[|rows| - 1][key]} {
          var i :| 0 <= i < |rows| && rows[i][key] == v;
          if i < |rows| - 1 {
            assert front[i] == rows[i];
          }
        }
        forall v | v in KeyValues(front, key) ensures v in KeyValues(rows, key) {
          var i :| 0 <= i < |front| && front[i][key] == v;
          assert rows[i] == front[i];
        }
      }
      ks
  }

  /** The mask `frame[key] == k`. */
  function InGroup(key: string, k: Value): Row -> bool {
    r => key in r && r[key] == k
  }

  /** The rows of the group with key `k`, in their original order. */
  function Group(rows: seq<Row>, key: string, k: Value): (g: seq<Row>)
    ensures forall r :: r in g <==> r in rows && key in r && r[key] == k
  {
    Filter(rows, InGroup(key, k))
  }

  /** A group of a present key is not empty. */
  lemma GroupNonEmpty(rows: seq<Row>, key: string, k: Value)
    requires HasColumn(rows, key) && k in KeyValues(rows, key)
    ensures |Group(rows, key, k)| > 0
  {
    var i :| 0 <= i < |rows| && rows[i][key] == k;
    assert rows[i] in Group(rows, key, k);
  }

  /** A column of numbers in every row is one in every sub-selection. */
  lemma SelectionNumberColumn(rows: seq<Row>, kept: seq<Row>, column: string)
    requires NumberColumn(rows, column)
    requires forall r :: r in kept ==> r in rows
    ensures NumberColumn(kept, column)
  {
    forall i | 0 <= i < |kept| ensures NumberAt(kept[i], column) {
      assert kept[i] in rows;
    }
  }

  /** `frame.groupby(key)[column].sum()` as (key, sum) pairs in key order. */
  function GroupSums(rows: seq<Row>, key: string, column: string): (g: seq<(Value, real)>)
    requires KeyColumn(rows, key) && NumberColumn(rows, column)
  {
    var ks := GroupKeys(rows, key);
    forall k ensures NumberColumn(Group(rows, key, k), column) {
      SelectionNumberColumn(rows, Group(rows, key, k), column);
    }
    seq(|ks|, j requires 0 <= j < |ks| => (ks[j], ColumnSum(Group(rows, key, ks[j]), column)))
  }

  /**
   * One entry per distinct key, in strictly increasing key order, each holding
   * the sum of the column over exactly the rows with that key.
   */
  lemma GroupSumsMeaning(rows: seq<Row>, key: string, column: string)
    requires KeyColumn(rows, key) && NumberColumn(rows, column)
    ensures var g := GroupSums(rows, key, column);
      && (forall k :: (exists j :: 0 <= j < |g| && g[j].0 == k) <==> k in KeyValues(rows, key))
      && (forall i, j :: 0 <= i < j < |g| ==> KeyLess(g[i].0, g[j].0))
      && (forall j :: 0 <= j < |g| ==>
            (NumberColumn(Group(rows, key, g[j].0), column) && g[j].1 == ColumnSum(Group(rows, key, g[j].0), column)))
  {
    var g := GroupSums(rows, key, column);
    var ks := GroupKeys(rows, key);
    forall k | k in KeyValues(rows, key) ensures exists j :: 0 <= j < |g| && g[j].0 == k {
      assert k in Elements(ks);
      var j :| 0 <= j < |ks| && ks[j] == k;
      assert g[j].0 == k;
    }
    forall k | (exists j :: 0 <= j < |g| && g[j].0 == k) ensures k in KeyValues(rows, key) {
      var j :| 0 <= j < |g| && g[j].0 == k;
      assert ks[j] in Elements(ks);
    }
  }

  /** Sorted distinct keys are as many as their set. */
  lemma {:induction false} IncreasingCount(ks: seq<Value>)
    requires Keys(ks) && StrictlyIncreasing(ks)
    ensures |Elements(ks)| == |ks|
  {
    if ks != [] {
      var tail := ks[1..];
      IncreasingCount(tail);
      assert Elements(ks) == {ks[0]} + Elements(tail);
      if ks[0] in Elements(tail) {
        var j :| 0 <= j < |tail| && tail[j] == ks[0];
        assert KeyLess(ks[0], ks[j + 1]);
        KeyOrder(ks[0], ks[0], ks[0]);
      }
    }
  }

  /** There is one group sum per distinct key value. */
  lemma GroupSumsCount(rows: seq<Row>, key: string, column: string)
    requires KeyColumn(rows, key) && NumberColumn(rows, column)
    ensures |GroupSums(rows, key, column)| == |KeyValues(rows, key)|
  {
    IncreasingCount(GroupKeys(rows, key));
  }

  /** The group sums have distinct keys. */
  lemma GroupSumsDistinctKeys(rows: seq<Row>, key: string, column: string)
    requires KeyColumn(rows, key) && NumberColumn(rows, column)
    ensures var g := GroupSums(rows, key, column);
      forall i, j :: 0 <= i < j < |g| ==> g[i].0 != g[j].0
  {
    var ks := GroupKeys(rows, key);
    var g := GroupSums(rows, key, column);
    forall i, j | 0 <= i < j < |g| ensures g[i].0 != g[j].0 {
      assert g[i].0 == ks[i] && g[j].0 == ks[j];
      KeyOrder(ks[i], ks[j], ks[j]);
    }
  }

  /** Appending a row adds its value to a selection's column sum exactly when the mask keeps it. */
  lemma FilterSumSnoc(rows: seq<Row>, r: Row, keep: Row -> bool, column: string)
    requires NumberColumn(rows, column) && NumberAt(r, column)
    ensures NumberColumn(Filter(rows, keep), column) && NumberColumn(Filter(rows + [r], keep), column)
    ensures ColumnSum(Filter(rows + [r], keep), column)
      == ColumnSum(Filter(rows, keep), column) + (if keep(r) then RealAt(r, column) else 0.0)
  {
    var all := rows + [r];
    assert all[..|all| - 1] == rows && all[|all| - 1] == r;
    SelectionNumberColumn(all, Filter(all, keep), column);
    SelectionNumberColumn(rows, Filter(rows, keep), column);
    var front := Filter(rows, keep);
    if keep(r) {
      var kept := front + [r];
      assert kept[..|kept| - 1] == front;
    }
  }

  /**
   * Two selections over row sequences that agree position by position, on the
   * mask and on the column, have the same column sum.
   */
  lemma {:induction false} FilterSumsAgree(a: seq<Row>, b: seq<Row>, keepA: Row -> bool, keepB: Row -> bool, column: string)
    requires |a| == |b| && NumberColumn(a, column) && NumberColumn(b, column)
    requires forall i :: 0 <= i < |a| ==> (keepA(a[i]) <==> keepB(b[i]))
    requires forall i :: 0 <= i < |a| ==> RealAt(a[i], column) == RealAt(b[i], column)
    ensures NumberColumn(Filter(a, keepA), column) && NumberColumn(Filter(b, keepB), column)
    ensures ColumnSum(Filter(a, keepA), column) == ColumnSum(Filter(b, keepB), column)
  {
    if a == [] {
      SelectionNumberColumn(a, Filter(a, keepA), column);
      SelectionNumberColumn(b, Filter(b, keepB), column);
    } else {
      var fa, fb := a[..|a| - 1], b[..|b| - 1];
      var la, lb := a[|a| - 1], b[|b| - 1];
      assert a == fa + [la] && b == fb + [lb];
      assert forall i :: 0 <= i < |fa| ==> fa[i] == a[i] && fb[i] == b[i];
      FilterSumsAgree(fa, fb, keepA, keepB, column);
      FilterSumSnoc(fa, la, keepA, column);
      FilterSumSnoc(fb, lb, keepB, column);
    }
  }

  // ---- the groups partition the rows ----

  /** The sum over the keys `ks` of each key's group sum. */
  function SumOverKeys(rows: seq<Row>, key: string, column: string, ks: seq<Value>): real
    requires NumberColumn(rows, column)
  {
    if ks == [] then 0.0
    else
      var k := ks[|ks| - 1];
      SelectionNumberColumn(rows, Group(rows, key, k), column);
      SumOverKeys(rows, key, column, ks[..|ks| - 1]) + ColumnSum(Group(rows, key, k), column)
  }

  /** Adding a row adds its value to the sum over distinct keys exactly once if its key is listed. */
  lemma {:induction false} SumOverKeysSnoc(rows: seq<Row>, r: Row, key: string, column: string, ks: seq<Value>)
    requires NumberColumn(rows, column) && NumberAt(r, column) && key in r && Distinct(ks)
    ensures NumberColumn(rows + [r], column)
    ensures SumOverKeys(rows + [r], key, column, ks)
      == SumOverKeys(rows, key, column, ks) + (if r[key] in ks then RealAt(r, column) else 0.0)
  {
    assert NumberColumn(rows + [r], column) by {
      forall i | 0 <= i < |rows + [r]| ensures NumberAt((rows + [r])[i], column) {
        if i < |rows| { assert (rows + [r])[i] == rows[i]; }
      }
    }
    if ks != [] {
      var front := ks[..|ks| - 1];
      var k := ks[|ks| - 1];
      assert ks == front + [k];
      assert Distinct(front);
      SumOverKeysSnoc(rows, r, key, column, front);
      FilterSumSnoc(rows, r, InGroup(key, k), column);
      assert r[key] in ks <==> r[key] in front || r[key] == k;
      assert k !in front by {
        forall i | 0 <= i < |front| ensures front[i] != k {
          assert front[i] == ks[i];
        }
      }
    }
  }

  /** Summing over distinct keys that cover every row's key gives the column total. */
  lemma {:induction false} SumOverKeysTotal(rows: seq<Row>, key: string, column: string, ks: seq<Value>)
    requires NumberColumn(rows, column) && HasColumn(rows, key) && Distinct(ks)
    requires forall i :: 0 <= i < |rows| ==> rows[i][key] in ks
    ensures SumOverKeys(rows, key, column, ks) == ColumnSum(rows, column)
    decreases |rows|
  {
    if rows == [] {
      SumOverKeysEmpty(key, column, ks);
    } else {
      var front := rows[..|rows| - 1];
      var r := rows[|rows| - 1];
      assert rows == front + [r];
      SumOverKeysTotal(front, key, column, ks);
      SumOverKeysSnoc(front, r, key, column, ks);
    }
  }

  lemma {:induction false} SumOverKeysEmpty(key: string, column: string, ks: seq<Value>)
    ensures SumOverKeys([], key, column, ks) == 0.0
  {
    if ks != [] {
      SumOverKeysEmpty(key, column, ks[..|ks| - 1]);
    }
  }

  function SumOfSums(g: seq<(Value, real)>): real {
    if g == [] then 0.0 else SumOfSums(g[..|g| - 1]) + g[|g| - 1].1
  }

  lemma {:induction false} SumOfSumsIsSumOverKeys(rows: seq<Row>, key: string, column: string, ks: seq<Value>, g: seq<(Value, real)>)
    requires NumberColumn(rows, column) && |g| == |ks|
    requires forall j :: 0 <= j < |g| ==>
      (g[j].0 == ks[j] && NumberColumn(Group(rows, key, ks[j]), column) && g[j].1 == ColumnSum(Group(rows, key, ks[j]), column))
    ensures SumOfSums(g) == SumOverKeys(rows, key, column, ks)
  {
    if g != [] {
      SumOfSumsIsSumOverKeys(rows, key, column, ks[..|ks| - 1], g[..|g| - 1]);
    }
  }

  /** The group sums add up to the column's total: every row is counted in exactly one group. */
  lemma GroupSumsTotal(rows: seq<Row>, key: string, column: string)
    requires KeyColumn(rows, key) && NumberColumn(rows, column)
    ensures SumOfSums(GroupSums(rows, key, column)) == ColumnSum(rows, column)
  {
    var ks := GroupKeys(rows, key);
    var g := GroupSums(rows, key, column);
    assert Distinct(ks) by {
      forall i, j | 0 <= i < j < |ks| ensures ks[i] != ks[j] {
        KeyOrder(ks[i], ks[j], ks[j]);
      }
    }
    forall i | 0 <= i < |rows| ensures rows[i][key] in ks {
      assert rows[i][key] in KeyValues(rows, key);
    }
    SumOfSumsIsSumOverKeys(rows, key, column, ks, g);
    SumOverKeysTotal(rows, key, column, ks);
  }

  // ---- descending orders ----

  /** A sort key: a tier first, then a real within the tier; larger ranks come first. */
  datatype Rank = Rank(tier: int, value: real)

  predicate AtLeast(a: Rank, b: Rank) {
    a.tier > b.tier || (a.tier == b.tier && a.value >= b.value)
  }

  predicate NonIncreasing<T>(xs: seq<T>, rank: T -> Rank) {
    forall i, j :: 0 <= i < j < |xs| ==> AtLeast(rank(xs[i]), rank(xs[j]))
  }

  /** `x` placed after every element ranked at least as high, so equal ranks keep their arrival order. */
  function InsertDescending<T>(xs: seq<T>, x: T, rank: T -> Rank): (r: seq<T>)
    requires NonIncreasing(xs, rank)
    ensures NonIncreasing(r, rank)
    ensures multiset(r) == multiset(xs) + multiset{x}
  {
    if xs == [] then [x]
    else if AtLeast(rank(xs[0]), rank(x)) then
      var tail := xs[1..];
      var rest := InsertDescending(tail, x, rank);
      assert xs == [xs[0]] + tail;
      forall j | 0 <= j < |rest| ensures AtLeast(rank(xs[0]), rank(rest[j])) {
        assert rest[j] in multiset(rest);
        if rest[j] != x {
          assert rest[j] in multiset(tail);
          var m :| 0 <= m < |tail| && tail[m] == rest[j];
          assert tail[m] == xs[m + 1];
        }
      }
      [xs[0]] + rest
    else
      assert xs == [xs[0]] + xs[1..];
      [x] + xs
  }

  /** A stable sort, highest rank first. */
  function SortDescending<T>(xs: seq<T>, rank: T -> Rank): (r: seq<T>)
    ensures NonIncreasing(r, rank)
    ensures multiset(r) == multiset(xs)
    ensures |r| == |xs|
  {
    if xs == [] then []
    else
      assert xs == xs[..|xs| - 1] + [xs[|xs| - 1]];
      var r := InsertDescending(SortDescending(xs[..|xs| - 1], rank), xs[|xs| - 1], rank);
      assert |r| == |multiset(r)|;
      r
  }

  function SumRank(entry: (Value, real)): Rank {
    Rank(0, entry.1)
  }

  /** `series.nlargest(n)`: the n entries with the largest values, largest first. */
  function NLargest(g: seq<(Value, real)>, n: nat): seq<(Value, real)> {
    var sorted := SortDescending(g, SumRank);
    sorted[..if n < |sorted| then n else |sorted|]
  }

  /** The entries `nlargest` drops: the rest of the sorted input. */
  function NSmallestRest(g: seq<(Value, real)>, n: nat): seq<(Value, real)> {
    var sorted := SortDescending(g, SumRank);
    sorted[if n < |sorted| then n else |sorted|..]
  }

  /** The kept entries and the dropped ones together are the input, sorted. */
  lemma NLargestSplit(g: seq<(Value, real)>, n: nat)
    ensures NLargest(g, n) + NSmallestRest(g, n) == SortDescending(g, SumRank)
    ensures multiset(NLargest(g, n)) + multiset(NSmallestRest(g, n)) == multiset(g)
  {
    var sorted := SortDescending(g, SumRank);
    assert sorted == sorted[..if n < |sorted| then n else |sorted|] + sorted[if n < |sorted| then n else |sorted|..];
  }

  /** At most n entries, all taken from the input, largest value first. */
  lemma NLargestMeaning(g: seq<(Value, real)>, n: nat)
    ensures var top := NLargest(g, n);
      && |top| == (if n < |g| then n else |g|)
      && (forall i, j :: 0 <= i < j < |top| ==> top[i].1 >= top[j].1)
      && (forall e :: e in top ==> e in g)
  {
    var sorted := SortDescending(g, SumRank);
    var top := NLargest(g, n);
    forall i, j | 0 <= i < j < |top| ensures top[i].1 >= top[j].1 {
      assert AtLeast(SumRank(sorted[i]), SumRank(sorted[j]));
    }
    forall e | e in top ensures e in g {
      assert e in multiset(sorted);
    }
  }

  /** A sequence repeats no element exactly when no element occurs twice in its multiset. */
  lemma {:induction false} DistinctMultiset<T>(xs: seq<T>)
    ensures Distinct(xs) <==> forall x :: multiset(xs)[x] <= 1
  {
    if xs != [] {
      var front, last := xs[..|xs| - 1], xs[|xs| - 1];
      assert xs == front + [last];
      DistinctMultiset(front);
      assert multiset(xs) == multiset(front) + multiset{last};
      assert Distinct(xs) <==> Distinct(front) && last !in front by {
        if Distinct(xs) {
          forall i, j | 0 <= i < j < |front| ensures front[i] != front[j] {
            assert front[i] == xs[i] && front[j] == xs[j];
          }
          forall i | 0 <= i < |front| ensures front[i] != last {
            assert front[i] == xs[i];
          }
        }
        if Distinct(front) && last !in front {
          forall i, j | 0 <= i < j < |xs| ensures xs[i] != xs[j] {
            assert xs[i] == front[i];
            if j < |front| {
              assert xs[j] == front[j];
            }
          }
        }
      }
      if forall x :: multiset(xs)[x] <= 1 {
        forall x ensures multiset(front)[x] <= 1 {
          assert multiset(front)[x] <= multiset(xs)[x];
        }
        assert multiset(xs)[last] == multiset(front)[last] + 1;
      }
    }
  }

  /** When the input's keys are distinct, so are the keys `nlargest` keeps. */
  lemma NLargestDistinctKeys(g: seq<(Value, real)>, n: nat)
    requires forall i, j :: 0 <= i < j < |g| ==> g[i].0 != g[j].0
    ensures var top := NLargest(g, n);
      forall i, j :: 0 <= i < j < |top| ==> top[i].0 != top[j].0
  {
    var sorted := SortDescending(g, SumRank);
    var top := NLargest(g, n);
    assert Distinct(g) by {
      forall i, j | 0 <= i < j < |g| ensures g[i] != g[j] {
        assert g[i].0 != g[j].0;
      }
    }
    DistinctMultiset(g);
    DistinctMultiset(sorted);
    forall i, j | 0 <= i < j < |top| ensures top[i].0 != top[j].0 {
      assert top[i] == sorted[i] && top[j] == sorted[j];
      assert top[i] in multiset(g) && top[j] in multiset(g);
      var p :| 0 <= p < |g| && g[p] == top[i];
      var q :| 0 <= q < |g| && g[q] == top[j];
    }
  }

  /** Every entry after the first n of the sorted input ranks no higher than every entry among the first n. */
  lemma RestBelowTop(g: seq<(Value, real)>, n: nat)
    ensures var top, rest := NLargest(g, n), NSmallestRest(g, n);
      forall i, j :: 0 <= i < |top| && 0 <= j < |rest| ==> rest[j].1 <= top[i].1
  {
    var sorted := SortDescending(g, SumRank);
    var top, rest := NLargest(g, n), NSmallestRest(g, n);
    forall i, j | 0 <= i < |top| && 0 <= j < |rest| ensures rest[j].1 <= top[i].1 {
      assert sorted[i] == top[i] && sorted[|top| + j] == rest[j];
      assert AtLeast(SumRank(sorted[i]), SumRank(sorted[|top| + j]));
    }
  }

  /** An input entry that `nlargest` does not keep is among the dropped ones. */
  lemma LeftOutInRest(g: seq<(Value, real)>, n: nat, e: (Value, real))
    requires e in g && e !in NLargest(g, n)
    ensures e in NSmallestRest(g, n)
  {
    NLargestSplit(g, n);
    assert e in multiset(g);
    assert e !in multiset(NLargest(g, n));
    assert e in multiset(NSmallestRest(g, n));
  }

  /**
   * The entries left out are exactly the rest of the input, counted with
   * multiplicity, and none has a larger value than an entry kept.
   */
  lemma NLargestLeftOut(g: seq<(Value, real)>, n: nat)
    ensures var top, rest := NLargest(g, n), NSmallestRest(g, n);
      && multiset(top) + multiset(rest) == multiset(g)
      && (forall i, j :: 0 <= i < |top| && 0 <= j < |rest| ==> rest[j].1 <= top[i].1)
      && (forall e, f :: e in g && e !in top && f in top ==> e.1 <= f.1)
  {
    var top, rest := NLargest(g, n), NSmallestRest(g, n);
    NLargestSplit(g, n);
    RestBelowTop(g, n);
    forall e, f | e in g && e !in top && f in top ensures e.1 <= f.1 {
      LeftOutInRest(g, n, e);
      var j :| 0 <= j < |rest| && rest[j] == e;
      var i :| 0 <= i < |top| && top[i] == f;
    }
  }
}
