/**
 * OHLC frames and the list of chart gaps `dt_breaks` (the timestamps of a
 * slice whose Close is missing), which the candlestick chart hides.
 */
module Ohlc {
  import opened Common
  import opened Series

  /** One OHLC row; `None` is a missing (NaN) price. Prices stay abstract: nothing computes with them. */
  datatype Bar<V> = Bar(open: Option<V>, high: Option<V>, low: Option<V>, close: Option<V>)

  /**
   * A loaded price table (`price_data["m15_data"]` or `["h4_data"]`): one
   * shared index and, per field, one column per symbol.
   */
  datatype PriceFrame<V> = PriceFrame(
    index: seq<int>,
    open: map<string, seq<Option<V>>>,
    high: map<string, seq<Option<V>>>,
    low: map<string, seq<Option<V>>>,
    close: map<string, seq<Option<V>>>)

  /** pandas keeps every column as long as its index. */
  predicate Shaped<V>(f: PriceFrame<V>) {
    && (forall c :: c in f.open ==> |f.open[c]| == |f.index|)
    && (forall c :: c in f.high ==> |f.high[c]| == |f.index|)
    && (forall c :: c in f.low ==> |f.low[c]| == |f.index|)
    && (forall c :: c in f.close ==> |f.close[c]| == |f.index|)
  }

  predicate HasSymbol<V>(f: PriceFrame<V>, symbol: string) {
    symbol in f.open && symbol in f.high && symbol in f.low && symbol in f.close
  }

  predicate IndexIncreasing(index: seq<int>) {
    forall i, j :: 0 <= i < j < |index| ==> index[i] < index[j]
  }

  /**
   * `pd.concat([open[symbol], high[symbol], low[symbol], close[symbol]],
   * axis=1, keys=['Open','High','Low','Close'])`: the four columns of one
   * symbol side by side on the shared index; None is the KeyError of a
   * symbol the table does not hold.
   */
  function SymbolBars<V>(f: PriceFrame<V>, symbol: string): (r: Option<seq<Obs<Bar<V>>>>)
    requires Shaped(f)
    ensures r.Some? <==> HasSymbol(f, symbol)
    ensures r.Some? ==> Times(r.value) == f.index
    ensures r.Some? ==> forall i :: 0 <= i < |f.index| ==>
      r.value[i].value == Bar(f.open[symbol][i], f.high[symbol][i], f.low[symbol][i], f.close[symbol][i])
    ensures r.Some? && IndexIncreasing(f.index) ==> Increasing(r.value)
  {
    if !HasSymbol(f, symbol) then None
    else
      var rows := seq(|f.index|, i requires 0 <= i < |f.index| =>
        Obs(f.index[i], Bar(f.open[symbol][i], f.high[symbol][i], f.low[symbol][i], f.close[symbol][i])));
      assert Times(rows) == f.index;
      Some(rows)
  }

  /** `df_slice['Close'].dropna().index.to_list()`: the labels whose Close is present. */
  function ObservedTimes<V>(s: seq<Obs<Bar<V>>>): (r: seq<int>)
    ensures |r| <= |s|
    ensures forall k :: 0 <= k < |r| ==> exists i :: 0 <= i < |s| && s[i].time == r[k] && s[i].value.close.Some?
  {
    if s == [] then []
    else
      var head := if s[0].value.close.Some? then [s[0].time] else [];
      var tail := ObservedTimes(s[1..]);
      var r := head + tail;
      forall k | 0 <= k < |r|
        ensures exists i :: 0 <= i < |s| && s[i].time == r[k] && s[i].value.close.Some?
      {
        if k < |head| {
          assert s[0].time == r[k] && s[0].value.close.Some?;
        } else {
          assert r[k] == tail[k - |head|];
          var i :| 0 <= i < |s[1..]| && s[1..][i].time == tail[k - |head|] && s[1..][i].value.close.Some?;
          assert s[i + 1] == s[1..][i];
        }
      }
      r
  }

  /** `[d for d in ts if d not in drop]`. */
  function KeepAbsent(ts: seq<int>, drop: seq<int>): (r: seq<int>)
    ensures forall t :: t in r <==> t in ts && t !in drop
  {
    if ts == [] then []
    else
      assert ts == [ts[0]] + ts[1..];
      (if ts[0] in drop then [] else [ts[0]]) + KeepAbsent(ts[1..], drop)
  }

  /** `dt_breaks`: the slice's labels that are absent from the non-null-Close labels. */
  function Breaks<V>(s: seq<Obs<Bar<V>>>): (r: seq<int>)
    ensures forall t :: t in r ==> exists i :: 0 <= i < |s| && s[i].time == t && s[i].value.close.None?
  {
    var r := KeepAbsent(Times(s), ObservedTimes(s));
    forall t | t in r
      ensures exists i :: 0 <= i < |s| && s[i].time == t && s[i].value.close.None?
    {
      var i :| 0 <= i < |s| && s[i].time == t;
      // t was not dropped, so no row labelled t, row i included, has a Close.
      ObservedTimesMembers(s);
    }
    r
  }

  /** Reference meaning: the labels of the rows whose Close is missing, in order. */
  function MissingCloseTimes<V>(s: seq<Obs<Bar<V>>>): seq<int> {
    if s == [] then []
    else (if s[0].value.close.None? then [s[0].time] else []) + MissingCloseTimes(s[1..])
  }

  lemma {:induction false} ObservedTimesMembers<V>(s: seq<Obs<Bar<V>>>)
    ensures forall t :: t in ObservedTimes(s) <==> exists i :: 0 <= i < |s| && s[i].time == t && s[i].value.close.Some?
  {
    if s != [] {
      ObservedTimesMembers(s[1..]);
      forall t | t in ObservedTimes(s)
        ensures exists i :: 0 <= i < |s| && s[i].time == t && s[i].value.close.Some?
      {
        if !(t == s[0].time && s[0].value.close.Some?) {
          assert t in ObservedTimes(s[1..]);
          var i :| 0 <= i < |s[1..]| && s[1..][i].time == t && s[1..][i].value.close.Some?;
          assert s[i + 1] == s[1..][i];
        }
      }
      forall t | exists i :: 0 <= i < |s| && s[i].time == t && s[i].value.close.Some?
        ensures t in ObservedTimes(s)
      {
        var i :| 0 <= i < |s| && s[i].time == t && s[i].value.close.Some?;
        if i > 0 {
          assert s[1..][i - 1] == s[i];
        }
      }
    }
  }

  lemma {:induction false} MissingCloseTimesMembers<V>(s: seq<Obs<Bar<V>>>)
    ensures forall t :: t in MissingCloseTimes(s) <==> exists i :: 0 <= i < |s| && s[i].time == t && s[i].value.close.None?
  {
    if s != [] {
      MissingCloseTimesMembers(s[1..]);
      forall t | t in MissingCloseTimes(s)
        ensures exists i :: 0 <= i < |s| && s[i].time == t && s[i].value.close.None?
      {
        if !(t == s[0].time && s[0].value.close.None?) {
          assert t in MissingCloseTimes(s[1..]);
          var i :| 0 <= i < |s[1..]| && s[1..][i].time == t && s[1..][i].value.close.None?;
          assert s[i + 1] == s[1..][i];
        }
      }
      forall t | exists i :: 0 <= i < |s| && s[i].time == t && s[i].value.close.None?
        ensures t in MissingCloseTimes(s)
      {
        var i :| 0 <= i < |s| && s[i].time == t && s[i].value.close.None?;
        if i > 0 {
          assert s[1..][i - 1] == s[i];
        }
      }
    }
  }

  /** `KeepAbsent` only looks at whether each label is dropped. */
  lemma {:induction false} KeepAbsentAgree(ts: seq<int>, drop: seq<int>, drop': seq<int>)
    requires forall i :: 0 <= i < |ts| ==> (ts[i] in drop <==> ts[i] in drop')
    ensures KeepAbsent(ts, drop) == KeepAbsent(ts, drop')
  {
    if ts != [] {
      KeepAbsentAgree(ts[1..], drop, drop');
    }
  }

  /**
   * On a strictly increasing index the comprehension of line 237 yields
   * exactly the labels of the rows with a missing Close, in index order.
   */
  lemma {:induction false} BreaksAreMissingCloses<V>(s: seq<Obs<Bar<V>>>)
    requires Increasing(s)
    ensures Breaks(s) == MissingCloseTimes(s)
  {
    if s == [] {
      return;
    }
    var x, rest := s[0], s[1..];
    IncreasingTail(s);
    BreaksAreMissingCloses(rest);
    ObservedTimesMembers(rest);
    // x's label is later in no row of `rest`, so it is dropped iff x's own Close is present.
    assert x.time !in ObservedTimes(rest);
    assert x.time !in Times(rest);
    assert Times(s) == [x.time] + Times(rest);
    KeepAbsentAgree(Times(rest), ObservedTimes(s), ObservedTimes(rest));
  }

  /**
   * Completeness and soundness of `dt_breaks`: a label is a break iff some
   * row of the slice carries it with a missing Close.
   */
  lemma BreaksExact<V>(s: seq<Obs<Bar<V>>>)
    requires Increasing(s)
    ensures forall t :: t in Breaks(s) <==> exists i :: 0 <= i < |s| && s[i].time == t && s[i].value.close.None?
  {
    BreaksAreMissingCloses(s);
    MissingCloseTimesMembers(s);
  }

  /** Counts of the two label lists add up to the slice length. */
  lemma {:induction false} SplitCounts<V>(s: seq<Obs<Bar<V>>>)
    ensures |MissingCloseTimes(s)| + |ObservedTimes(s)| == |s|
  {
    if s != [] {
      SplitCounts(s[1..]);
    }
  }

  /** Both label lists keep the slice's order: each is increasing when the index is. */
  lemma {:induction false} MissingCloseTimesIncreasing<V>(s: seq<Obs<Bar<V>>>)
    requires Increasing(s)
    ensures forall i, j :: 0 <= i < j < |MissingCloseTimes(s)| ==> MissingCloseTimes(s)[i] < MissingCloseTimes(s)[j]
  {
    if s != [] {
      IncreasingTail(s);
      MissingCloseTimesIncreasing(s[1..]);
      MissingCloseTimesMembers(s[1..]);
      var m := MissingCloseTimes(s);
      var tail := MissingCloseTimes(s[1..]);
      forall t | t in tail
        ensures s[0].time < t
      {
        var k :| 0 <= k < |s[1..]| && s[1..][k].time == t && s[1..][k].value.close.None?;
        assert s[k + 1].time == t;
      }
      if s[0].value.close.None? {
        assert m == [s[0].time] + tail;
        forall i, j | 0 <= i < j < |m|
          ensures m[i] < m[j]
        {
          if i == 0 {
            assert m[j] == tail[j - 1] && m[j] in tail;
          } else {
            assert m[i] == tail[i - 1] && m[j] == tail[j - 1];
          }
        }
      } else {
        assert m == tail;
      }
    }
  }

  /**
   * `dt_breaks` and the non-null-Close labels split the slice's labels: no
   * label is in both, each slice label is in one of them, each keeps index
   * order, and their lengths add up to the slice length.
   */
  lemma BreaksPartition<V>(s: seq<Obs<Bar<V>>>)
    requires Increasing(s)
    ensures forall t :: !(t in Breaks(s) && t in ObservedTimes(s))
    ensures forall t :: t in Times(s) <==> t in Breaks(s) || t in ObservedTimes(s)
    ensures |Breaks(s)| + |ObservedTimes(s)| == |s|
    ensures forall i, j :: 0 <= i < j < |Breaks(s)| ==> Breaks(s)[i] < Breaks(s)[j]
  {
    BreaksAreMissingCloses(s);
    ObservedTimesMembers(s);
    SplitCounts(s);
    MissingCloseTimesIncreasing(s);
    forall t | t in Times(s)
      ensures t in Breaks(s) || t in ObservedTimes(s)
    {
      var i :| 0 <= i < |s| && s[i].time == t;
      if s[i].value.close.None? {
        MissingCloseTimesMembers(s);
      }
    }
  }
}
