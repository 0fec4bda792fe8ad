/**
 * The daily breakdown: a row per day of the period, a column per item that
 * holds the item's amount on its dates and 0 elsewhere, the row sums
 * ("daily_total") and their running sums ("cumulative_total"). Rows are
 * keyed by the instant of their Timestamp in nanoseconds.
 */
module Ledger {
  import opened Wrappers
  import opened Stamps
  import opened Folds

  /** An item's column before the join: its label, its amount and the row keys of its dates. */
  datatype Column<N> = Column(name: N, amount: int, keys: seq<int>)

  /**
   * The breakdown frame: the row keys, the item columns' labels and cells
   * (one sequence per column, one cell per row), and the two total columns.
   */
  datatype Table<N> = Table(rows: seq<int>, names: seq<N>, cells: seq<seq<int>>, daily: seq<int>, cumulative: seq<int>)

  predicate Increasing(s: seq<int>) {
    forall i, j :: 0 <= i < j < |s| ==> s[i] < s[j]
  }

  /** `date_range(lo, hi)`: lo, lo plus one day, and so on while not past hi. */
  function DailyKeys(lo: int, hi: int): seq<int>
    decreases hi - lo + NanosPerDay
  {
    if lo > hi then [] else [lo] + DailyKeys(lo + NanosPerDay, hi)
  }

  /** One key joined into ascending row keys: a key already there adds no row. */
  function Insert(rows: seq<int>, k: int): seq<int> {
    if rows == [] then [k]
    else if k < rows[0] then [k] + rows
    else if k == rows[0] then rows
    else [rows[0]] + Insert(rows[1..], k)
  }

  /** The outer join of row keys with one column's keys. */
  function Merge(rows: seq<int>, keys: seq<int>): seq<int> {
    if keys == [] then rows else Insert(Merge(rows, keys[..|keys| - 1]), keys[|keys| - 1])
  }

  /** The outer join with every column, in column order. */
  function JoinAll<N>(rows: seq<int>, cs: seq<Column<N>>): seq<int> {
    if cs == [] then rows else Merge(JoinAll(rows, cs[..|cs| - 1]), cs[|cs| - 1].keys)
  }

  /** The row index of the breakdown: the days of the period joined with every item's dates. */
  function Rows<N>(lo: int, hi: int, cs: seq<Column<N>>): seq<int> {
    JoinAll(DailyKeys(lo, hi), cs)
  }

  /** After the join and `fillna(0)`: the amount on the column's own dates, 0 on every other row. */
  function Cell<N>(c: Column<N>, row: int): int {
    if row in c.keys then c.amount else 0
  }

  function CellsOf<N>(c: Column<N>, rows: seq<int>): seq<int> {
    seq(|rows|, i requires 0 <= i < |rows| => Cell(c, rows[i]))
  }

  /** `sum(axis=1)` of one row over the item columns. */
  function RowSum<N>(cs: seq<Column<N>>, row: int): int {
    if cs == [] then 0 else RowSum(cs[..|cs| - 1], row) + Cell(cs[|cs| - 1], row)
  }

  function Total(s: seq<int>): int {
    if s == [] then 0 else Total(s[..|s| - 1]) + s[|s| - 1]
  }

  /** `cumsum()`: entry i is the total of entries 0..i. */
  function RunningTotals(s: seq<int>): seq<int> {
    seq(|s|, i requires 0 <= i < |s| => Total(s[..i + 1]))
  }

  function Names<N>(cs: seq<Column<N>>): seq<N> {
    seq(|cs|, j requires 0 <= j < |cs| => cs[j].name)
  }

  /**
   * The whole breakdown frame of a period [lo, hi] and the item columns:
   * one column per item, then the daily and the cumulative total. An item
   * labelled like a total column is not told apart here.
   */
  function Tabulation<N>(lo: int, hi: int, cs: seq<Column<N>>): Table<N> {
    var rows := Rows(lo, hi, cs);
    var daily := seq(|rows|, i requires 0 <= i < |rows| => RowSum(cs, rows[i]));
    Table(rows, Names(cs), seq(|cs|, j requires 0 <= j < |cs| => CellsOf(cs[j], rows)), daily, RunningTotals(daily))
  }

  /** `date_range(lo, hi)` holds lo + i days for i = 0, 1, ... up to hi: (hi - lo) / day + 1 keys, none when hi < lo. */
  lemma {:induction false} DailyKeysIndex(lo: int, hi: int)
    ensures |DailyKeys(lo, hi)| == if lo > hi then 0 else (hi - lo) / NanosPerDay + 1
    ensures forall i :: 0 <= i < |DailyKeys(lo, hi)| ==> DailyKeys(lo, hi)[i] == lo + i * NanosPerDay
    decreases hi - lo + NanosPerDay
  {
    if lo <= hi {
      DailyKeysIndex(lo + NanosPerDay, hi);
      var r := DailyKeys(lo, hi);
      assert r == [lo] + DailyKeys(lo + NanosPerDay, hi);
      forall i | 1 <= i < |r|
        ensures r[i] == lo + i * NanosPerDay
      {
        assert r[i] == DailyKeys(lo + NanosPerDay, hi)[i - 1];
      }
    }
  }

  /** The keys of `date_range(lo, hi)` are exactly the instants a whole number of days after lo and not after hi. */
  lemma DailyKeysMembers(lo: int, hi: int, k: int)
    ensures k in DailyKeys(lo, hi) <==> lo <= k <= hi && (k - lo) % NanosPerDay == 0
  {
    DailyKeysIndex(lo, hi);
    var r := DailyKeys(lo, hi);
    if lo <= k <= hi && (k - lo) % NanosPerDay == 0 {
      var i := (k - lo) / NanosPerDay;
      assert k == lo + i * NanosPerDay;
      assert i <= (hi - lo) / NanosPerDay;
      assert r[i] == k;
    }
    if k in r {
      var i :| 0 <= i < |r| && r[i] == k;
      assert k - lo == i * NanosPerDay;
      assert i <= (hi - lo) / NanosPerDay;
    }
  }

  lemma DailyKeysIncreasing(lo: int, hi: int)
    ensures Increasing(DailyKeys(lo, hi))
  {
    DailyKeysIndex(lo, hi);
  }

  /** Joining a key adds it and nothing else, and keeps the rows ascending. */
  lemma {:induction false} InsertFacts(rows: seq<int>, k: int)
    ensures forall x :: x in Insert(rows, k) <==> x in rows || x == k
    ensures Increasing(rows) ==> Increasing(Insert(rows, k))
  {
    if rows != [] && k > rows[0] {
      InsertFacts(rows[1..], k);
      assert rows == [rows[0]] + rows[1..];
      if Increasing(rows) {
        var r := Insert(rows, k);
        forall i, j | 0 <= i < j < |r|
          ensures r[i] < r[j]
        {
          if i == 0 {
            assert r[j] in Insert(rows[1..], k);
          }
        }
      }
    }
  }

  /** A key that is already a row adds no row. */
  lemma {:induction false} InsertPresent(rows: seq<int>, k: int)
    requires Increasing(rows) && k in rows
    ensures Insert(rows, k) == rows
  {
    if k != rows[0] {
      assert k in rows[1..];
      InsertPresent(rows[1..], k);
      assert [rows[0]] + rows[1..] == rows;
    }
  }

  lemma {:induction false} MergeFacts(rows: seq<int>, keys: seq<int>)
    ensures forall x :: x in Merge(rows, keys) <==> x in rows || x in keys
    ensures Increasing(rows) ==> Increasing(Merge(rows, keys))
    decreases |keys|
  {
    if keys != [] {
      var init := keys[..|keys| - 1];
      MergeFacts(rows, init);
      InsertFacts(Merge(rows, init), keys[|keys| - 1]);
      assert keys == init + [keys[|keys| - 1]];
    }
  }

  lemma {:induction false} MergePresent(rows: seq<int>, keys: seq<int>)
    requires Increasing(rows) && forall x :: x in keys ==> x in rows
    ensures Merge(rows, keys) == rows
    decreases |keys|
  {
    if keys != [] {
      var init := keys[..|keys| - 1];
      assert forall x :: x in init ==> x in keys;
      MergePresent(rows, init);
      InsertPresent(rows, keys[|keys| - 1]);
    }
  }

  lemma {:induction false} JoinAllFacts<N>(rows: seq<int>, cs: seq<Column<N>>)
    ensures forall x :: x in JoinAll(rows, cs) <==> x in rows || exists j :: 0 <= j < |cs| && x in cs[j].keys
    ensures Increasing(rows) ==> Increasing(JoinAll(rows, cs))
    decreases |cs|
  {
    if cs != [] {
      var init := cs[..|cs| - 1];
      JoinAllFacts(rows, init);
      MergeFacts(JoinAll(rows, init), cs[|cs| - 1].keys);
      forall x | x in JoinAll(rows, cs)
        ensures x in rows || exists j :: 0 <= j < |cs| && x in cs[j].keys
      {
        if !(x in cs[|cs| - 1].keys) && x !in rows {
          var j :| 0 <= j < |init| && x in init[j].keys;
          assert init[j] == cs[j];
        }
      }
      forall x | x in rows || exists j :: 0 <= j < |cs| && x in cs[j].keys
        ensures x in JoinAll(rows, cs)
      {
        if x !in rows && x !in cs[|cs| - 1].keys {
          var j :| 0 <= j < |cs| && x in cs[j].keys;
          assert init[j] == cs[j];
        }
      }
    }
  }

  lemma {:induction false} JoinAllPresent<N>(rows: seq<int>, cs: seq<Column<N>>)
    requires Increasing(rows)
    requires forall j, x :: 0 <= j < |cs| && x in cs[j].keys ==> x in rows
    ensures JoinAll(rows, cs) == rows
    decreases |cs|
  {
    if cs != [] {
      var init := cs[..|cs| - 1];
      forall j, x | 0 <= j < |init| && x in init[j].keys
        ensures x in rows
      {
        assert init[j] == cs[j];
      }
      JoinAllPresent(rows, init);
      MergePresent(rows, cs[|cs| - 1].keys);
    }
  }

  /**
   * The rows of the breakdown are ascending, without repeats, and hold exactly
   * the days of the period and every item's dates: the join is outer, so a
   * date outside the period adds a row.
   */
  lemma RowsFacts<N>(lo: int, hi: int, cs: seq<Column<N>>, x: int)
    ensures Increasing(Rows(lo, hi, cs))
    ensures x in Rows(lo, hi, cs) <==>
      (lo <= x <= hi && (x - lo) % NanosPerDay == 0) || exists j :: 0 <= j < |cs| && x in cs[j].keys
  {
    DailyKeysIncreasing(lo, hi);
    JoinAllFacts(DailyKeys(lo, hi), cs);
    DailyKeysMembers(lo, hi, x);
  }

  /** When every item date lies in the period, the rows are exactly the days of the period. */
  lemma RowsWithin<N>(lo: int, hi: int, cs: seq<Column<N>>)
    requires forall j, x :: 0 <= j < |cs| && x in cs[j].keys ==> lo <= x <= hi && (x - lo) % NanosPerDay == 0
    ensures Rows(lo, hi, cs) == DailyKeys(lo, hi)
  {
    DailyKeysIncreasing(lo, hi);
    forall j, x | 0 <= j < |cs| && x in cs[j].keys
      ensures x in DailyKeys(lo, hi)
    {
      DailyKeysMembers(lo, hi, x);
    }
    JoinAllPresent(DailyKeys(lo, hi), cs);
  }

  /** The running totals: the first is the first daily total, each next one adds that day's total, the last is the grand total. */
  lemma RunningTotalsStep(s: seq<int>)
    ensures |RunningTotals(s)| == |s|
    ensures |s| > 0 ==> RunningTotals(s)[0] == s[0]
    ensures forall i :: 0 < i < |s| ==> RunningTotals(s)[i] == RunningTotals(s)[i - 1] + s[i]
    ensures |s| > 0 ==> RunningTotals(s)[|s| - 1] == Total(s)
  {
    var r := RunningTotals(s);
    forall i | 0 < i < |s|
      ensures r[i] == r[i - 1] + s[i]
    {
      assert s[..i + 1][..i] == s[..i];
    }
    if |s| > 0 {
      assert s[..1][..0] == [];
      assert Total(s[..1]) == Total(s[..1][..0]) + s[0];
      assert s[..|s|] == s;
    }
  }

  lemma {:induction false} TotalAdd(a: seq<int>, b: seq<int>, c: seq<int>)
    requires |a| == |b| == |c|
    requires forall i :: 0 <= i < |c| ==> c[i] == a[i] + b[i]
    ensures Total(c) == Total(a) + Total(b)
    decreases |c|
  {
    if c != [] {
      var n := |c| - 1;
      TotalAdd(a[..n], b[..n], c[..n]);
    }
  }

  lemma {:induction false} TotalZero(s: seq<int>)
    requires forall i :: 0 <= i < |s| ==> s[i] == 0
    ensures Total(s) == 0
    decreases |s|
  {
    if s != [] {
      TotalZero(s[..|s| - 1]);
    }
  }

  /** The sum of every item cell, column by column. */
  function ColumnTotals<N>(cs: seq<Column<N>>, rows: seq<int>): int {
    if cs == [] then 0 else ColumnTotals(cs[..|cs| - 1], rows) + Total(CellsOf(cs[|cs| - 1], rows))
  }

  /** Adding the daily totals gives the same as adding the item columns' totals. */
  lemma {:induction false} DailyTotalsSum<N>(cs: seq<Column<N>>, rows: seq<int>)
    ensures Total(seq(|rows|, i requires 0 <= i < |rows| => RowSum(cs, rows[i]))) == ColumnTotals(cs, rows)
    decreases |cs|
  {
    var daily := seq(|rows|, i requires 0 <= i < |rows| => RowSum(cs, rows[i]));
    if cs == [] {
      TotalZero(daily);
    } else {
      var init := cs[..|cs| - 1];
      DailyTotalsSum(init, rows);
      var before := seq(|rows|, i requires 0 <= i < |rows| => RowSum(init, rows[i]));
      TotalAdd(before, CellsOf(cs[|cs| - 1], rows), daily);
    }
  }

  /**
   * The last cumulative total is the sum of every item cell of the
   * breakdown, and each cumulative total adds that row's daily total to the
   * one before.
   */
  lemma TabulationTotals<N>(lo: int, hi: int, cs: seq<Column<N>>)
    ensures var t := Tabulation(lo, hi, cs);
      && |t.daily| == |t.rows| == |t.cumulative|
      && |t.cells| == |t.names| == |cs|
      && (forall j :: 0 <= j < |cs| ==> t.names[j] == cs[j].name && |t.cells[j]| == |t.rows|)
      && (forall i :: 0 <= i < |t.rows| ==> t.daily[i] == RowSum(cs, t.rows[i]))
      && (|t.rows| > 0 ==> t.cumulative[0] == t.daily[0])
      && (forall i :: 0 < i < |t.rows| ==> t.cumulative[i] == t.cumulative[i - 1] + t.daily[i])
      && (|t.rows| > 0 ==> t.cumulative[|t.rows| - 1] == ColumnTotals(cs, t.rows))
  {
    var t := Tabulation(lo, hi, cs);
    RunningTotalsStep(t.daily);
    DailyTotalsSum(cs, t.rows);
  }

  /** A cell holds the item's amount on exactly the item's own dates and 0 on every other row. */
  lemma CellMeaning<N>(lo: int, hi: int, cs: seq<Column<N>>, j: int, i: int)
    requires 0 <= j < |cs| && 0 <= i < |Rows(lo, hi, cs)|
    ensures Tabulation(lo, hi, cs).cells[j][i] == if Rows(lo, hi, cs)[i] in cs[j].keys then cs[j].amount else 0
  {
  }

  /** The three columns of the example budget, starting on day `start`. */
  function ExampleColumns(start: int): seq<Column<string>> {
    var d := NanosPerDay;
    var lo := start * d;
    [ Column("cash", 200, [lo]),
      Column("food", -5, DailyKeys(lo + d, lo + 5 * d)),
      Column("commute", -1, DailyKeys(lo + 2 * d, lo + 4 * d)) ]
  }

  lemma ExampleRows(start: int)
    ensures var lo := start * NanosPerDay;
      Rows(lo, lo + 5 * NanosPerDay, ExampleColumns(start)) == DailyKeys(lo, lo + 5 * NanosPerDay)
  {
    var d := NanosPerDay;
    var lo := start * d;
    var cs := ExampleColumns(start);
    forall j, x | 0 <= j < |cs| && x in cs[j].keys
      ensures lo <= x <= lo + 5 * d && (x - lo) % d == 0
    {
      if j == 1 {
        DailyKeysMembers(lo + d, lo + 5 * d, x);
        assert x - lo == (x - (lo + d)) + d;
      } else if j == 2 {
        DailyKeysMembers(lo + 2 * d, lo + 4 * d, x);
        assert x - lo == (x - (lo + 2 * d)) + 2 * d;
      }
    }
    RowsWithin(lo, lo + 5 * d, cs);
  }

  /** Row i of the example: cash on the first day, food from the second, commute on the third to fifth. */
  lemma ExampleRowSum(start: int, i: int)
    requires 0 <= i < 6
    ensures RowSum(ExampleColumns(start), start * NanosPerDay + i * NanosPerDay)
      == (if i == 0 then 200 else 0) + (if i >= 1 then -5 else 0) + (if 2 <= i <= 4 then -1 else 0)
  {
    var d := NanosPerDay;
    var lo := start * d;
    var cs := ExampleColumns(start);
    var x := lo + i * d;
    DailyKeysMembers(lo + d, lo + 5 * d, x);
    DailyKeysMembers(lo + 2 * d, lo + 4 * d, x);
    WholeDays(i - 1);
    WholeDays(i - 2);
    assert x - (lo + d) == (i - 1) * d;
    assert x - (lo + 2 * d) == (i - 2) * d;
    assert Cell(cs[0], x) == if i == 0 then 200 else 0;
    assert Cell(cs[1], x) == if i >= 1 then -5 else 0;
    assert Cell(cs[2], x) == if 2 <= i <= 4 then -1 else 0;
    assert cs[..3] == cs && cs[..3][..2] == cs[..2] && cs[..2][..1] == cs[..1] && cs[..1][..0] == [];
    assert RowSum(cs, x) == RowSum(cs[..2], x) + Cell(cs[2], x);
    assert RowSum(cs[..2], x) == RowSum(cs[..1], x) + Cell(cs[1], x);
    assert RowSum(cs[..1], x) == Cell(cs[0], x);
  }

  lemma WholeDays(k: int)
    ensures (k * NanosPerDay) % NanosPerDay == 0
  {
  }

  lemma ExampleDaily(start: int)
    ensures var lo := start * NanosPerDay;
      Tabulation(lo, lo + 5 * NanosPerDay, ExampleColumns(start)).daily == [200, -5, -6, -6, -6, -5]
  {
    var d := NanosPerDay;
    var lo := start * d;
    var cs := ExampleColumns(start);
    ExampleRows(start);
    DailyKeysIndex(lo, lo + 5 * d);
    var rows := Rows(lo, lo + 5 * d, cs);
    var daily := seq(|rows|, i requires 0 <= i < |rows| => RowSum(cs, rows[i]));
    assert |daily| == 6;
    forall i | 0 <= i < 6
      ensures daily[i] == [200, -5, -6, -6, -6, -5][i]
    {
      ExampleRowSum(start, i);
    }
  }

  /** The running totals of the example's daily totals. */
  lemma ExampleCumulative()
    ensures RunningTotals([200, -5, -6, -6, -6, -5]) == [200, 195, 189, 183, 177, 172]
  {
    var s := [200, -5, -6, -6, -6, -5];
    RunningTotalsStep(s);
    var r := RunningTotals(s);
    assert r[0] == 200;
    assert r[1] == 195;
    assert r[2] == 189;
    assert r[3] == 183;
    assert r[4] == 177;
    assert r[5] == 172;
  }

  /**
   * The example budget from 2021-12-31 (day 18992) to 2022-01-05: cash 200
   * on the first day, food -5 on each of the next five, commute -1 on
   * 2022-01-02 to 2022-01-04.
   */
  lemma BreakdownExample()
    ensures var lo := 18992 * NanosPerDay;
      var t := Tabulation(lo, lo + 5 * NanosPerDay, ExampleColumns(18992));
      && t.names == ["cash", "food", "commute"]
      && t.daily == [200, -5, -6, -6, -6, -5]
      && t.cumulative == [200, 195, 189, 183, 177, 172]
  {
    ExampleDaily(18992);
    ExampleCumulative();
  }

  /** Where a key goes: the first position whose key is not below it. */
  lemma {:induction false} InsertAt(rows: seq<int>, k: int, p: nat)
    requires p <= |rows| && (p < |rows| ==> rows[p] >= k)
    requires forall q :: 0 <= q < p ==> rows[q] < k
    ensures Insert(rows, k) == if p < |rows| && rows[p] == k then rows else rows[..p] + [k] + rows[p..]
  {
    if p > 0 {
      var tail := rows[1..];
      assert rows[0] < k;
      forall q | 0 <= q < p - 1
        ensures tail[q] < k
      {
        assert tail[q] == rows[q + 1];
      }
      InsertAt(tail, k, p - 1);
      assert Insert(rows, k) == [rows[0]] + Insert(tail, k);
      if p < |rows| && rows[p] == k {
        assert tail[p - 1] == rows[p];
        assert [rows[0]] + tail == rows;
      } else {
        assert [rows[0]] + tail[..p - 1] == rows[..p];
        assert tail[p - 1..] == rows[p..];
      }
    }
  }

  /** Joins one key into the row keys: a scan for its position, then an insertion unless it is there. */
  method InsertKey(rows: seq<int>, k: int) returns (r: seq<int>)
    ensures r == Insert(rows, k)
  {
    var p := 0;
    while p < |rows| && rows[p] < k
      invariant 0 <= p <= |rows|
      invariant forall q :: 0 <= q < p ==> rows[q] < k
    {
      p := p + 1;
    }
    InsertAt(rows, k, p);
    if p < |rows| && rows[p] == k {
      r := rows;
    } else {
      r := rows[..p] + [k] + rows[p..];
    }
  }

  /** `date_range(lo, hi)`, built day by day. */
  method DayIndex(lo: int, hi: int) returns (rows: seq<int>)
    ensures rows == DailyKeys(lo, hi)
  {
    rows := [];
    var k := lo;
    while k <= hi
      invariant rows + DailyKeys(k, hi) == DailyKeys(lo, hi)
      decreases hi - k + NanosPerDay
    {
      assert DailyKeys(k, hi) == [k] + DailyKeys(k + NanosPerDay, hi);
      rows := rows + [k];
      k := k + NanosPerDay;
    }
  }

  /** The outer joins of `concat(axis=1)`, one column after the other, one key after the other. */
  method Join<N>(index: seq<int>, cs: seq<Column<N>>) returns (rows: seq<int>)
    ensures rows == JoinAll(index, cs)
  {
    rows := index;
    var j := 0;
    while j < |cs|
      invariant 0 <= j <= |cs|
      invariant rows == JoinAll(index, cs[..j])
    {
      var keys := cs[j].keys;
      ghost var before := rows;
      var m := 0;
      while m < |keys|
        invariant 0 <= m <= |keys|
        invariant rows == Merge(before, keys[..m])
      {
        assert keys[..m + 1][..m] == keys[..m];
        rows := InsertKey(rows, keys[m]);
        m := m + 1;
      }
      assert keys[..|keys|] == keys;
      assert cs[..j + 1][..j] == cs[..j];
      j := j + 1;
    }
    assert cs[..|cs|] == cs;
  }

  /** One item column over the joined rows, filled in an array: `fillna(0)` off the item's dates. */
  method FillColumn<N>(c: Column<N>, rows: seq<int>) returns (cells: seq<int>)
    ensures cells == CellsOf(c, rows)
  {
    var a := new int[|rows|];
    var i := 0;
    while i < |rows|
      invariant 0 <= i <= |rows|
      invariant forall p :: 0 <= p < i ==> a[p] == Cell(c, rows[p])
    {
      a[i] := if rows[i] in c.keys then c.amount else 0;
      i := i + 1;
    }
    cells := a[..];
  }

  /** `sum(axis=1)`: each row's item cells added up, column by column. */
  method RowSums<N>(cs: seq<Column<N>>, rows: seq<int>, cells: seq<seq<int>>) returns (daily: seq<int>)
    requires |cells| == |cs| && forall j :: 0 <= j < |cs| ==> cells[j] == CellsOf(cs[j], rows)
    ensures daily == seq(|rows|, i requires 0 <= i < |rows| => RowSum(cs, rows[i]))
  {
    var a := new int[|rows|];
    var i := 0;
    while i < |rows|
      invariant 0 <= i <= |rows|
      invariant forall p :: 0 <= p < i ==> a[p] == RowSum(cs, rows[p])
    {
      var s := 0;
      var j := 0;
      while j < |cs|
        invariant 0 <= j <= |cs|
        invariant s == RowSum(cs[..j], rows[i])
      {
        assert cs[..j + 1][..j] == cs[..j];
        s := s + cells[j][i];
        j := j + 1;
      }
      assert cs[..|cs|] == cs;
      a[i] := s;
      i := i + 1;
    }
    daily := a[..];
  }

  /** `cumsum()`: a running total written into an array. */
  method CumulativeSums(daily: seq<int>) returns (cumulative: seq<int>)
    ensures cumulative == RunningTotals(daily)
  {
    var a := new int[|daily|];
    var acc := 0;
    var i := 0;
    while i < |daily|
      invariant 0 <= i <= |daily|
      invariant acc == Total(daily[..i])
      invariant forall p :: 0 <= p < i ==> a[p] == Total(daily[..p + 1])
    {
      assert daily[..i + 1][..i] == daily[..i];
      acc := acc + daily[i];
      a[i] := acc;
      i := i + 1;
    }
    cumulative := a[..];
  }

  /**
   * `calculate_breakdown`: the row index from the period, the outer join with
   * each item's dates, the item cells, then the daily totals and their running
   * sums.
   */
  method Tabulate<N>(lo: int, hi: int, cs: seq<Column<N>>) returns (t: Table<N>)
    ensures t == Tabulation(lo, hi, cs)
  {
    var index := DayIndex(lo, hi);
    var rows := Join(index, cs);
    var cells: seq<seq<int>> := [];
    var j := 0;
    while j < |cs|
      invariant 0 <= j <= |cs| && |cells| == j
      invariant forall q :: 0 <= q < j ==> cells[q] == CellsOf(cs[q], rows)
    {
      var column := FillColumn(cs[j], rows);
      cells := cells + [column];
      j := j + 1;
    }
    var daily := RowSums(cs, rows, cells);
    var cumulative := CumulativeSums(daily);
    t := Table(rows, Names(cs), cells, daily, cumulative);
  }

  /** The row keys of a list of dates. */
  function InstantsOf(ds: seq<Timestamp>): (ks: seq<int>)
    ensures |ks| == |ds| && forall i :: 0 <= i < |ds| ==> ks[i] == Instant(ds[i])
  {
    if ds == [] then [] else InstantsOf(ds[..|ds| - 1]) + [Instant(ds[|ds| - 1])]
  }

  /**
   * The breakdown of a list of entries: the loop over the entries builds the
   * columns, stopping at the first failure, then the frame is tabulated.
   */
  method Breakdown<T, N, E>(lo: int, hi: int, entries: seq<T>, column: T -> Result<Column<N>, E>) returns (r: Result<Table<N>, E>)
    ensures MapAll(entries, column).Failure? ==> r == Failure(MapAll(entries, column).error)
    ensures MapAll(entries, column).Success? ==> r == Success(Tabulation(lo, hi, MapAll(entries, column).value))
  {
    var cs: seq<Column<N>> := [];
    var j := 0;
    while j < |entries|
      invariant 0 <= j <= |entries|
      invariant MapAll(entries[..j], column) == Success(cs)
    {
      MapAllStep(entries, column, j);
      match column(entries[j]) {
        case Failure(e) =>
          FailureSticks(entries, column, j + 1);
          return Failure(e);
        case Success(c) =>
          cs := cs + [c];
      }
      j := j + 1;
    }
    assert entries[..|entries|] == entries;
    var t := Tabulate(lo, hi, cs);
    r := Success(t);
  }
}
