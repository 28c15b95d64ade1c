/**
 * The simulation statistics table (lines 18-25): the whole-portfolio stats
 * and one stats record per traded symbol side by side, the two average
 * trade durations floored to whole seconds, the metric labels turned into a
 * first column, every cell turned into text, and two columns renamed.
 *
 * The stats themselves come from the backtest engine and are inputs here.
 */
module Stats {
  import opened Common

  /**
   * A stats cell: a Timedelta in integer nanoseconds, a Timestamp in integer
   * nanoseconds since the epoch (the `Start` and `End` rows), NaT, or any
   * other value, such as a float or a count (kept opaque; it has no `floor`).
   */
  datatype StatValue = Span(nanos: int) | Stamp(nanos: int) | NaT | Scalar(text: string)

  /** One `pf.stats()` / `pf[symbol].stats()` record: metric labels and their values. */
  datatype StatsRecord = StatsRecord(metrics: seq<string>, values: seq<StatValue>)

  /** `iloc` past the last row (IndexError) or `floor` on a value without it (AttributeError). */
  datatype StatsError = PositionOutOfRange(position: nat) | NotFloorable(position: nat)

  const WinDurationLabel: string := "Avg Winning Trade Duration"
  const LossDurationLabel: string := "Avg Losing Trade Duration"
  /** The rows the code reads by position, taken to be the two duration metrics. */
  const WinDurationPosition: nat := 21
  const LossDurationPosition: nat := 22
  const NanosPerSecond: int := 1_000_000_000
  /** The name pandas gives the column of `pf.stats()`. */
  const PortfolioColumn: string := "agg_stats"
  /** The column `reset_index` makes of an unnamed index. */
  const IndexColumn: string := "index"
  const ColumnRenames: map<string, string> := map[PortfolioColumn := "WholePortfolio", IndexColumn := "Metrics"]

  predicate Distinct(s: seq<string>) {
    forall i, j :: 0 <= i < j < |s| ==> s[i] != s[j]
  }

  /** `list(series.unique())`: each value once, in order of first appearance. */
  function Unique(s: seq<string>): (r: seq<string>)
    ensures forall x :: x in r <==> x in s
    ensures Distinct(r)
  {
    if s == [] then []
    else
      var u := Unique(s[..|s| - 1]);
      var x := s[|s| - 1];
      assert s == s[..|s| - 1] + [x];
      if x in u then u else u + [x]
  }

  /** Position of the first occurrence of `x` in `s`. */
  function FirstIndex(s: seq<string>, x: string): (k: nat)
    requires x in s
    ensures k < |s| && s[k] == x && x !in s[..k]
  {
    if s[0] == x then 0
    else
      var k := FirstIndex(s[1..], x);
      assert s[..k + 1] == [s[0]] + s[1..][..k];
      k + 1
  }

  lemma FirstIndexExtend(s: seq<string>, y: string, x: string)
    requires y in s
    ensures FirstIndex(s + [x], y) == FirstIndex(s, y)
  {
    var k, k' := FirstIndex(s, y), FirstIndex(s + [x], y);
    assert (s + [x])[k] == y;
    assert forall j :: 0 <= j < k ==> s[j] != y;
    assert forall j :: 0 <= j < k' ==> (s + [x])[j] != y;
  }

  /** The symbols come out in the order of their first trade. */
  lemma {:induction false} UniqueKeepsFirstAppearanceOrder(s: seq<string>)
    ensures forall i, j :: 0 <= i < j < |Unique(s)| ==> FirstIndex(s, Unique(s)[i]) < FirstIndex(s, Unique(s)[j])
  {
    if s != [] {
      var p, x := s[..|s| - 1], s[|s| - 1];
      assert s == p + [x];
      UniqueKeepsFirstAppearanceOrder(p);
      var u := Unique(p);
      forall y | y in u
        ensures FirstIndex(s, y) == FirstIndex(p, y) < |p|
      {
        FirstIndexExtend(p, y, x);
      }
      if x !in u {
        assert x !in p;
        assert FirstIndex(s, x) == |p| by {
          assert s[|p|] == x;
          assert s[..|p|] == p;
        }
        var r := u + [x];
        forall i, j | 0 <= i < j < |r|
          ensures FirstIndex(s, r[i]) < FirstIndex(s, r[j])
        {
          assert r[i] == u[i] && r[i] in u;
          if j < |u| {
            assert r[j] == u[j] && r[j] in u;
          }
        }
      }
    }
  }

  /** `Timedelta.floor('s')` on integer nanoseconds: the largest whole second not above it. */
  function FloorToSecond(ns: int): (r: int)
    ensures r % NanosPerSecond == 0
    ensures r <= ns < r + NanosPerSecond
  {
    ns - ns % NanosPerSecond
  }

  /**
   * `x.floor('s')`: a Timedelta or a Timestamp drops its sub-second part, NaT
   * stays NaT; None is the AttributeError of a value without `floor`.
   */
  function FloorValue(v: StatValue): (r: Option<StatValue>)
    ensures r.Some? <==> !v.Scalar?
    ensures v.Span? ==>
      (r.Some? && r.value.Span? && r.value.nanos % NanosPerSecond == 0 &&
       r.value.nanos <= v.nanos < r.value.nanos + NanosPerSecond)
    ensures v.Stamp? ==>
      (r.Some? && r.value.Stamp? && r.value.nanos % NanosPerSecond == 0 &&
       r.value.nanos <= v.nanos < r.value.nanos + NanosPerSecond)
    ensures v.NaT? ==> r == Some(NaT)
  {
    match v
    case Span(ns) => Some(Span(FloorToSecond(ns)))
    case Stamp(ns) => Some(Stamp(FloorToSecond(ns)))
    case NaT => Some(NaT)
    case Scalar(_) => None
  }

  /** `[x.floor('s') for x in row]`, which fails as a whole at the first value without `floor`. */
  function FloorAll(row: seq<StatValue>): (r: Option<seq<StatValue>>)
    ensures r.Some? <==> forall c :: 0 <= c < |row| ==> !row[c].Scalar?
    ensures r.Some? ==> |r.value| == |row| && forall c :: 0 <= c < |row| ==> FloorValue(row[c]) == Some(r.value[c])
  {
    if row == [] then Some([])
    else match (FloorValue(row[0]), FloorAll(row[1..]))
      case (Some(v), Some(vs)) => Some([v] + vs)
      case _ => None
  }

  /** `df.loc[key] = values`: every row labelled `key` is replaced, or a new row is appended. */
  ghost predicate AfterSetRow(index0: seq<string>, rows0: seq<seq<StatValue>>, key: string, values: seq<StatValue>,
                              index1: seq<string>, rows1: seq<seq<StatValue>>)
  {
    if key in index0 then
      index1 == index0 && |rows1| == |rows0| == |index0| &&
      forall i :: 0 <= i < |rows1| ==> rows1[i] == (if index0[i] == key then values else rows0[i])
    else
      index1 == index0 + [key] && rows1 == rows0 + [values]
  }

  /** The value shown in row `i`: floored to whole seconds in the two duration rows, as is elsewhere. */
  function DisplayCell(i: nat, v: StatValue): (r: StatValue)
    ensures (i == WinDurationPosition || i == LossDurationPosition) && v.Span? ==>
      r.Span? && r.nanos % NanosPerSecond == 0 && r.nanos <= v.nanos < r.nanos + NanosPerSecond
    ensures i != WinDurationPosition && i != LossDurationPosition ==> r == v
  {
    if (i == WinDurationPosition || i == LossDurationPosition) && !v.Scalar? then FloorValue(v).value else v
  }

  /**
   * What the positional reads of lines 22-23 take for granted: rows 21 and
   * 22 are the two duration metrics, no other row carries those labels, and
   * both rows hold only values with `floor`.
   */
  ghost predicate FrameReady(index: seq<string>, rows: seq<seq<StatValue>>) {
    && |index| > LossDurationPosition
    && |rows| == |index|
    && index[WinDurationPosition] == WinDurationLabel
    && index[LossDurationPosition] == LossDurationLabel
    && (forall i :: 0 <= i < |index| && i != WinDurationPosition ==> index[i] != WinDurationLabel)
    && (forall i :: 0 <= i < |index| && i != LossDurationPosition ==> index[i] != LossDurationLabel)
    && FloorAll(rows[WinDurationPosition]).Some?
    && FloorAll(rows[LossDurationPosition]).Some?
  }

  /**
   * When the two positional reads of lines 22-23 both succeed: row 21
   * exists and floors, and row 22 then exists and floors. Storing the first
   * result under the win label appends a row unless that label is already
   * present, and row 22 is that stored row whenever it carries the label.
   */
  ghost predicate DurationFloorsSucceed(index: seq<string>, rows: seq<seq<StatValue>>)
    requires |rows| == |index|
  {
    && |index| > WinDurationPosition
    && FloorAll(rows[WinDurationPosition]).Some?
    && !(|index| == LossDurationPosition && WinDurationLabel in index)
    && (|index| > LossDurationPosition && index[LossDurationPosition] != WinDurationLabel ==>
          FloorAll(rows[LossDurationPosition]).Some?)
  }

  /** A floored row floors again. */
  lemma FlooredRowFloors(row: seq<StatValue>)
    requires FloorAll(row).Some?
    ensures FloorAll(FloorAll(row).value).Some?
  {
    var f := FloorAll(row).value;
    forall c | 0 <= c < |f|
      ensures !f[c].Scalar?
    {
      assert FloorValue(row[c]) == Some(f[c]);
    }
  }

  /** The stats DataFrame while it still holds values, metric labels as its index. */
  class StatsFrame {
    var index: seq<string>
    var columns: seq<string>
    var rows: seq<seq<StatValue>>

    ghost predicate Valid()
      reads this
    {
      |rows| == |index| && forall i :: 0 <= i < |rows| ==> |rows[i]| == |columns|
    }

    /** `pd.concat(records, axis=1)` of records that share one metric index; column k is record k. */
    constructor Concat(names: seq<string>, metrics: seq<string>, records: seq<StatsRecord>)
      requires |names| == |records|
      requires forall k :: 0 <= k < |records| ==> records[k].metrics == metrics && |records[k].values| == |metrics|
      ensures Valid()
      ensures index == metrics && columns == names
      ensures forall i, k :: 0 <= i < |metrics| && 0 <= k < |records| ==> rows[i][k] == records[k].values[i]
    {
      index := metrics;
      columns := names;
      rows := seq(|metrics|, i requires 0 <= i < |metrics| =>
        seq(|records|, k requires 0 <= k < |records| => records[k].values[i]));
    }

    /** `self.loc[key] = values`. */
    method SetRow(key: string, values: seq<StatValue>)
      requires Valid() && |values| == |columns|
      modifies this
      ensures Valid() && columns == old(columns)
      ensures AfterSetRow(old(index), old(rows), key, values, index, rows)
    {
      if key in index {
        var labels, oldRows := index, rows;
        rows := seq(|oldRows|, i requires 0 <= i < |oldRows| => if labels[i] == key then values else oldRows[i]);
      } else {
        index := index + [key];
        rows := rows + [values];
      }
    }

    /**
     * `self.loc[key] = [x.floor('s') for x in self.iloc[position]]`; on an
     * error nothing is assigned.
     */
    method FloorRowInto(key: string, position: nat) returns (err: Option<StatsError>)
      requires Valid()
      modifies this
      ensures Valid() && columns == old(columns)
      ensures position >= |old(index)| ==>
        err == Some(PositionOutOfRange(position)) && index == old(index) && rows == old(rows)
      ensures position < |old(index)| && FloorAll(old(rows)[position]).None? ==>
        err == Some(NotFloorable(position)) && index == old(index) && rows == old(rows)
      ensures position < |old(index)| && FloorAll(old(rows)[position]).Some? ==>
        err == None && AfterSetRow(old(index), old(rows), key, FloorAll(old(rows)[position]).value, index, rows)
    {
      if position >= |index| {
        return Some(PositionOutOfRange(position));
      }
      var floored := FloorAll(rows[position]);
      if floored.None? {
        return Some(NotFloorable(position));
      }
      SetRow(key, floored.value);
      return None;
    }

    /**
     * Lines 22-23: the rows at positions 21 and 22 floored to whole seconds
     * and stored under the two duration labels, stopping at the first
     * IndexError or AttributeError. When those positions hold the two labels
     * (and no other row does) and values with `floor`, exactly the two
     * duration rows change, to their floored values.
     */
    method FloorDurationRows() returns (err: Option<StatsError>)
      requires Valid()
      modifies this
      ensures Valid() && columns == old(columns)
      ensures |old(index)| <= WinDurationPosition ==> err == Some(PositionOutOfRange(WinDurationPosition))
      ensures |old(index)| > WinDurationPosition && FloorAll(old(rows)[WinDurationPosition]).None? ==>
        err == Some(NotFloorable(WinDurationPosition))
      ensures |old(index)| == LossDurationPosition && WinDurationLabel in old(index) &&
              FloorAll(old(rows)[WinDurationPosition]).Some? ==>
        err == Some(PositionOutOfRange(LossDurationPosition))
      ensures |old(index)| > LossDurationPosition && FloorAll(old(rows)[WinDurationPosition]).Some? &&
              old(index)[LossDurationPosition] != WinDurationLabel && FloorAll(old(rows)[LossDurationPosition]).None? ==>
        err == Some(NotFloorable(LossDurationPosition))
      ensures err.None? <==> DurationFloorsSucceed(old(index), old(rows))
      ensures err.None? ==>
        exists index1, rows1 ::
          && AfterSetRow(old(index), old(rows), WinDurationLabel, FloorAll(old(rows)[WinDurationPosition]).value,
                         index1, rows1)
          && |rows1| == |index1| > LossDurationPosition
          && FloorAll(rows1[LossDurationPosition]).Some?
          && AfterSetRow(index1, rows1, LossDurationLabel, FloorAll(rows1[LossDurationPosition]).value, index, rows)
      ensures FrameReady(old(index), old(rows)) ==>
        err.None? && index == old(index) && |rows| == |index| &&
        forall i, c :: 0 <= i < |index| && 0 <= c < |columns| ==> rows[i][c] == DisplayCell(i, old(rows)[i][c])
    {
      ghost var index0, rows0 := index, rows;
      err := FloorRowInto(WinDurationLabel, WinDurationPosition);
      if err.Some? {
        return;
      }
      ghost var f21 := FloorAll(rows0[WinDurationPosition]).value;
      FlooredRowFloors(rows0[WinDurationPosition]);
      ghost var index1, rows1 := index, rows;
      if WinDurationLabel in index0 {
        assert |index1| == |index0|;
        if |index0| > LossDurationPosition {
          assert rows1[LossDurationPosition] ==
            (if index0[LossDurationPosition] == WinDurationLabel then f21 else rows0[LossDurationPosition]);
        }
      } else {
        assert |index1| == |index0| + 1;
        assert rows1[LossDurationPosition] ==
          (if |index0| == LossDurationPosition then f21 else rows0[LossDurationPosition]);
      }
      err := FloorRowInto(LossDurationLabel, LossDurationPosition);
      if FrameReady(index0, rows0) {
        forall i, c | 0 <= i < |index| && 0 <= c < |columns|
          ensures rows[i][c] == DisplayCell(i, rows0[i][c])
        {
          if i == WinDurationPosition {
            assert FloorValue(rows0[i][c]) == Some(rows1[i][c]);
          } else if i == LossDurationPosition {
            assert rows1[i] == rows0[i];
            assert FloorValue(rows1[i][c]) == Some(rows[i][c]);
          }
        }
      }
    }

    /** `self.reset_index().astype(str)`: a new all-text table whose first column holds the labels. */
    method ResetIndexAsText(show: StatValue -> string) returns (t: TextTable)
      requires Valid()
      ensures fresh(t) && t.Valid()
      ensures t.columns == [IndexColumn] + columns
      ensures |t.rows| == |index|
      ensures forall i :: 0 <= i < |index| ==> t.rows[i][0] == index[i]
      ensures forall i, c :: 0 <= i < |index| && 0 <= c < |columns| ==> t.rows[i][c + 1] == show(rows[i][c])
    {
      var labels, values := index, rows;
      var text := seq(|labels|, i requires 0 <= i < |labels| && |labels| == |values| =>
        [labels[i]] + seq(|values[i]|, c requires 0 <= c < |values[i]| => show(values[i][c])));
      t := new TextTable([IndexColumn] + columns, text);
    }
  }

  /** A name keeps itself unless it is a key of `renames`, and then it becomes one of the new names. */
  function Renamed(renames: map<string, string>, name: string): (r: string)
    ensures name !in renames ==> r == name
    ensures name in renames ==> r in renames.Values
  {
    if name in renames then renames[name] else name
  }

  /** The final, all-text table handed to the UI. */
  class TextTable {
    var columns: seq<string>
    var rows: seq<seq<string>>

    ghost predicate Valid()
      reads this
    {
      forall i :: 0 <= i < |rows| ==> |rows[i]| == |columns|
    }

    constructor (columns: seq<string>, rows: seq<seq<string>>)
      requires forall i :: 0 <= i < |rows| ==> |rows[i]| == |columns|
      ensures Valid() && this.columns == columns && this.rows == rows
    {
      this.columns := columns;
      this.rows := rows;
    }

    /** `self.rename(inplace=True, columns=renames)`: every column named by a key takes its new name. */
    method Rename(renames: map<string, string>)
      requires Valid()
      modifies this
      ensures Valid() && rows == old(rows)
      ensures |columns| == |old(columns)|
      ensures forall c :: 0 <= c < |columns| ==> columns[c] == Renamed(renames, old(columns)[c])
    {
      var names := columns;
      columns := seq(|names|, c requires 0 <= c < |names| => Renamed(renames, names[c]));
    }
  }

  /** The records concatenated by line 21: the whole portfolio's, then each symbol's. */
  function Records(whole: StatsRecord, symbolStats: string -> StatsRecord, symbols: seq<string>): (r: seq<StatsRecord>)
    ensures |r| == |symbols| + 1 && r[0] == whole
    ensures forall k :: 0 <= k < |symbols| ==> r[k + 1] == symbolStats(symbols[k])
  {
    [whole] + seq(|symbols|, k requires 0 <= k < |symbols| => symbolStats(symbols[k]))
  }

  /** The header after renaming: the label column, the portfolio column, one column per symbol. */
  function Header(symbols: seq<string>): (h: seq<string>)
    ensures |h| == |symbols| + 2
  {
    var raw := [IndexColumn, PortfolioColumn] + symbols;
    seq(|raw|, c requires 0 <= c < |raw| => Renamed(ColumnRenames, raw[c]))
  }

  /** Unless a symbol is itself called "index" or "agg_stats", the header is Metrics, WholePortfolio, then the symbols. */
  lemma HeaderNames(symbols: seq<string>)
    requires IndexColumn !in symbols && PortfolioColumn !in symbols
    ensures Header(symbols) == ["Metrics", "WholePortfolio"] + symbols
  {
    var h := Header(symbols);
    forall c | 2 <= c < |h|
      ensures h[c] == symbols[c - 2]
    {
      assert symbols[c - 2] in symbols;
    }
  }

  /** Every record's value at `position` has `floor` (a Timedelta, a Timestamp or NaT). */
  ghost predicate RowFloorable(records: seq<StatsRecord>, position: nat) {
    forall k :: 0 <= k < |records| ==> position < |records[k].values| && !records[k].values[position].Scalar?
  }

  /** `DurationFloorsSucceed` stated on the concatenated records. */
  ghost predicate RecordFloorsSucceed(metrics: seq<string>, records: seq<StatsRecord>) {
    && |metrics| > WinDurationPosition
    && RowFloorable(records, WinDurationPosition)
    && !(|metrics| == LossDurationPosition && WinDurationLabel in metrics)
    && (|metrics| > LossDurationPosition && metrics[LossDurationPosition] != WinDurationLabel ==>
          RowFloorable(records, LossDurationPosition))
  }

  /**
   * The exception lines 21-23 end in, if any, read off the records: the
   * IndexError of `iloc[21]`, the AttributeError of a row-21 value without
   * `floor`, the IndexError of `iloc[22]` once line 22 has replaced (not
   * appended) a row of a 22-row frame, and the AttributeError of a row-22
   * value without `floor` when row 22 is not the row line 22 stored.
   */
  ghost function DurationFloorError(metrics: seq<string>, records: seq<StatsRecord>): (e: Option<StatsError>)
    ensures e.None? <==> RecordFloorsSucceed(metrics, records)
  {
    if |metrics| <= WinDurationPosition then Some(PositionOutOfRange(WinDurationPosition))
    else if !RowFloorable(records, WinDurationPosition) then Some(NotFloorable(WinDurationPosition))
    else if |metrics| == LossDurationPosition && WinDurationLabel in metrics then
      Some(PositionOutOfRange(LossDurationPosition))
    else if |metrics| > LossDurationPosition && metrics[LossDurationPosition] != WinDurationLabel &&
            !RowFloorable(records, LossDurationPosition) then
      Some(NotFloorable(LossDurationPosition))
    else None
  }

  /** Records whose duration rows sit where the code reads them never make lines 21-23 fail. */
  lemma ReadyRecordsFloor(metrics: seq<string>, records: seq<StatsRecord>)
    requires DurationRowsReady(metrics, records)
    ensures DurationFloorError(metrics, records) == None
  {
    assert metrics[WinDurationPosition] == WinDurationLabel;
  }

  /** `FrameReady` stated on the concatenated records. */
  ghost predicate DurationRowsReady(metrics: seq<string>, records: seq<StatsRecord>) {
    && |metrics| > LossDurationPosition
    && metrics[WinDurationPosition] == WinDurationLabel
    && metrics[LossDurationPosition] == LossDurationLabel
    && (forall i :: 0 <= i < |metrics| && i != WinDurationPosition ==> metrics[i] != WinDurationLabel)
    && (forall i :: 0 <= i < |metrics| && i != LossDurationPosition ==> metrics[i] != LossDurationLabel)
    && (forall k :: 0 <= k < |records| ==>
          |records[k].values| == |metrics| &&
          !records[k].values[WinDurationPosition].Scalar? && !records[k].values[LossDurationPosition].Scalar?)
  }

  /**
   * Lines 18-25. The header is the renamed label, portfolio and symbol
   * columns, symbols in order of first trade. Fewer than 22 metrics is the
   * IndexError of `iloc[21]` and a value without `floor` in row 21 the
   * AttributeError of line 22; after line 22 has stored its row, line 23
   * fails the same two ways on row 22 (`DurationFloorError` says which
   * comes first). When the duration rows are where the
   * code expects them, the table has one row per metric, its first cell the
   * metric label and the others the stringified values, the duration rows
   * floored to whole seconds.
   */
  method BuildStatsTable(tradeColumns: seq<string>, whole: StatsRecord, symbolStats: string -> StatsRecord,
                         show: StatValue -> string)
    returns (r: Result<TextTable, StatsError>)
    requires |whole.values| == |whole.metrics|
    requires forall c :: c in tradeColumns ==>
      symbolStats(c).metrics == whole.metrics && |symbolStats(c).values| == |whole.metrics|
    ensures r.Ok? ==> r.value.Valid() && r.value.columns == Header(Unique(tradeColumns))
    ensures r.Ok? <==> DurationFloorError(whole.metrics, Records(whole, symbolStats, Unique(tradeColumns))).None?
    ensures r.Err? ==> Some(r.error) == DurationFloorError(whole.metrics, Records(whole, symbolStats, Unique(tradeColumns)))
    ensures DurationRowsReady(whole.metrics, Records(whole, symbolStats, Unique(tradeColumns))) ==>
      r.Ok? && |r.value.rows| == |whole.metrics|
    ensures DurationRowsReady(whole.metrics, Records(whole, symbolStats, Unique(tradeColumns))) ==>
      forall i :: 0 <= i < |whole.metrics| ==> r.value.rows[i][0] == whole.metrics[i]
    ensures DurationRowsReady(whole.metrics, Records(whole, symbolStats, Unique(tradeColumns))) ==>
      forall i, k :: 0 <= i < |whole.metrics| && 0 <= k <= |Unique(tradeColumns)| ==>
        r.value.rows[i][k + 1] == show(DisplayCell(i, Records(whole, symbolStats, Unique(tradeColumns))[k].values[i]))
  {
    var symbols := Unique(tradeColumns);
    var records := Records(whole, symbolStats, symbols);
    RecordsShape(tradeColumns, whole, symbolStats, symbols);
    if DurationRowsReady(whole.metrics, records) {
      ReadyRecordsFloor(whole.metrics, records);
    }
    var frame, err := FlooredFrame([PortfolioColumn] + symbols, whole.metrics, records);
    if err.Some? {
      return Err(err.value);
    }
    var table := RenderText(frame, symbols, show);
    r := Ok(table);
    if DurationRowsReady(whole.metrics, records) {
      forall i, k | 0 <= i < |whole.metrics| && 0 <= k <= |symbols|
        ensures table.rows[i][k + 1] == show(DisplayCell(i, records[k].values[i]))
      {
        assert table.rows[i][k + 1] == show(frame.rows[i][k]);
      }
    }
  }

  /** Every record of line 21 lists the whole portfolio's metrics, one value each. */
  lemma RecordsShape(tradeColumns: seq<string>, whole: StatsRecord, symbolStats: string -> StatsRecord,
                     symbols: seq<string>)
    requires |whole.values| == |whole.metrics|
    requires forall c :: c in tradeColumns ==>
      symbolStats(c).metrics == whole.metrics && |symbolStats(c).values| == |whole.metrics|
    requires forall c :: c in symbols ==> c in tradeColumns
    ensures forall k :: 0 <= k < |symbols| + 1 ==>
      Records(whole, symbolStats, symbols)[k].metrics == whole.metrics &&
      |Records(whole, symbolStats, symbols)[k].values| == |whole.metrics|
  {
    var records := Records(whole, symbolStats, symbols);
    forall k | 0 <= k < |records|
      ensures records[k].metrics == whole.metrics && |records[k].values| == |whole.metrics|
    {
      if k > 0 {
        assert records[k] == symbolStats(symbols[k - 1]) && symbols[k - 1] in symbols;
      }
    }
  }

  /**
   * Lines 24-25: `reset_index().astype(str)` then the in-place rename; the
   * labels go to the first column and every cell is shown as text.
   */
  method RenderText(frame: StatsFrame, symbols: seq<string>, show: StatValue -> string) returns (table: TextTable)
    requires frame.Valid() && frame.columns == [PortfolioColumn] + symbols
    ensures fresh(table) && table.Valid() && table.columns == Header(symbols)
    ensures |table.rows| == |frame.index|
    ensures forall i :: 0 <= i < |frame.index| ==> table.rows[i][0] == frame.index[i]
    ensures forall i, k :: 0 <= i < |frame.index| && 0 <= k <= |symbols| ==>
      table.rows[i][k + 1] == show(frame.rows[i][k])
  {
    table := frame.ResetIndexAsText(show);
    table.Rename(ColumnRenames);
    assert table.columns == Header(symbols);
  }

  /** Lines 21-23: the records concatenated into a new frame, then its duration rows floored. */
  method FlooredFrame(names: seq<string>, metrics: seq<string>, records: seq<StatsRecord>)
    returns (frame: StatsFrame, err: Option<StatsError>)
    requires |names| == |records|
    requires forall k :: 0 <= k < |records| ==> records[k].metrics == metrics && |records[k].values| == |metrics|
    ensures fresh(frame) && frame.Valid() && frame.columns == names
    ensures err == DurationFloorError(metrics, records)
    ensures |metrics| <= WinDurationPosition ==> err == Some(PositionOutOfRange(WinDurationPosition))
    ensures |metrics| > WinDurationPosition && !RowFloorable(records, WinDurationPosition) ==>
      err == Some(NotFloorable(WinDurationPosition))
    ensures |metrics| == LossDurationPosition && WinDurationLabel in metrics &&
            RowFloorable(records, WinDurationPosition) ==>
      err == Some(PositionOutOfRange(LossDurationPosition))
    ensures |metrics| > LossDurationPosition && RowFloorable(records, WinDurationPosition) &&
            metrics[LossDurationPosition] != WinDurationLabel && !RowFloorable(records, LossDurationPosition) ==>
      err == Some(NotFloorable(LossDurationPosition))
    ensures DurationRowsReady(metrics, records) ==>
      && frame.index == metrics && |frame.rows| == |metrics|
      && forall i, k :: 0 <= i < |metrics| && 0 <= k < |records| ==>
           frame.rows[i][k] == DisplayCell(i, records[k].values[i])
  {
    frame := new StatsFrame.Concat(names, metrics, records);
    ConcatReadiness(metrics, records, frame.rows);
    ghost var rows0 := frame.rows;
    err := frame.FloorDurationRows();
    OutcomeOnRecords(metrics, records, rows0, err);
  }

  /** How the readiness of the records carries over to the concatenated frame. */
  lemma ConcatReadiness(metrics: seq<string>, records: seq<StatsRecord>, rows: seq<seq<StatValue>>)
    requires |rows| == |metrics|
    requires forall i :: 0 <= i < |metrics| ==> |rows[i]| == |records|
    requires forall k :: 0 <= k < |records| ==> |records[k].values| == |metrics|
    requires forall i, k :: 0 <= i < |metrics| && 0 <= k < |records| ==> rows[i][k] == records[k].values[i]
    ensures DurationRowsReady(metrics, records) ==> FrameReady(metrics, rows)
    ensures |metrics| > WinDurationPosition ==>
      (FloorAll(rows[WinDurationPosition]).Some? <==> RowFloorable(records, WinDurationPosition))
    ensures |metrics| > LossDurationPosition ==>
      (FloorAll(rows[LossDurationPosition]).Some? <==> RowFloorable(records, LossDurationPosition))
    ensures DurationFloorsSucceed(metrics, rows) <==> RecordFloorsSucceed(metrics, records)
  {
    if |metrics| > WinDurationPosition {
      RowFloorableColumn(records, rows[WinDurationPosition], WinDurationPosition);
    }
    if |metrics| > LossDurationPosition {
      RowFloorableColumn(records, rows[LossDurationPosition], LossDurationPosition);
    }
  }

  /** The outcome of lines 22-23 on the concatenated frame, restated on the records it was built from. */
  lemma OutcomeOnRecords(metrics: seq<string>, records: seq<StatsRecord>, rows: seq<seq<StatValue>>,
                         err: Option<StatsError>)
    requires |rows| == |metrics|
    requires forall i :: 0 <= i < |metrics| ==> |rows[i]| == |records|
    requires forall k :: 0 <= k < |records| ==> |records[k].values| == |metrics|
    requires forall i, k :: 0 <= i < |metrics| && 0 <= k < |records| ==> rows[i][k] == records[k].values[i]
    requires |metrics| <= WinDurationPosition ==> err == Some(PositionOutOfRange(WinDurationPosition))
    requires |metrics| > WinDurationPosition && FloorAll(rows[WinDurationPosition]).None? ==>
      err == Some(NotFloorable(WinDurationPosition))
    requires |metrics| == LossDurationPosition && WinDurationLabel in metrics &&
             FloorAll(rows[WinDurationPosition]).Some? ==>
      err == Some(PositionOutOfRange(LossDurationPosition))
    requires |metrics| > LossDurationPosition && FloorAll(rows[WinDurationPosition]).Some? &&
             metrics[LossDurationPosition] != WinDurationLabel && FloorAll(rows[LossDurationPosition]).None? ==>
      err == Some(NotFloorable(LossDurationPosition))
    requires err.None? <==> DurationFloorsSucceed(metrics, rows)
    ensures err == DurationFloorError(metrics, records)
    ensures |metrics| > WinDurationPosition && !RowFloorable(records, WinDurationPosition) ==>
      err == Some(NotFloorable(WinDurationPosition))
    ensures |metrics| == LossDurationPosition && WinDurationLabel in metrics &&
            RowFloorable(records, WinDurationPosition) ==>
      err == Some(PositionOutOfRange(LossDurationPosition))
    ensures |metrics| > LossDurationPosition && RowFloorable(records, WinDurationPosition) &&
            metrics[LossDurationPosition] != WinDurationLabel && !RowFloorable(records, LossDurationPosition) ==>
      err == Some(NotFloorable(LossDurationPosition))
  {
    ConcatReadiness(metrics, records, rows);
  }

  /** A frame row read across the records floors iff every record's value at that position does. */
  lemma RowFloorableColumn(records: seq<StatsRecord>, row: seq<StatValue>, position: nat)
    requires |row| == |records|
    requires forall k :: 0 <= k < |records| ==> position < |records[k].values| && row[k] == records[k].values[position]
    ensures FloorAll(row).Some? <==> RowFloorable(records, position)
  {
  }
}
