/**
 * The two chart callbacks of the strategy tab: `main_chart` (candles of one
 * symbol in a date range, with the gap list) and `contruct_rsi` with its
 * helper `rsi_indicator` (RSI with entry/exit signals), including the
 * timeframe dispatch and the order in which their failures surface.
 *
 * The loaded series are inputs (the pickle files are not modelled); the
 * 4-hour signal frames are derived from the 15-minute ones as at load time.
 */
module Dashboard {
  import opened Common
  import opened Dates
  import opened Series
  import opened Ohlc
  import opened Resample

  /** The chart timeframes the callbacks know. */
  datatype Timeframe = M15 | H4

  /** The `if time_period == ...` chain: any other token takes no branch. */
  function TimeframeOf(token: string): (r: Option<Timeframe>)
    ensures r == Some(H4) <==> token == "4h"
    ensures r == Some(M15) <==> token == "15m"
    ensures r.None? <==> token != "4h" && token != "15m"
  {
    if token == "4h" then Some(H4)
    else if token == "15m" then Some(M15)
    else None
  }

  /**
   * Everything the callbacks read from the loaded pickles. Of the RSI
   * Bollinger-band tables only the symbols they hold matter: `contruct_rsi`
   * looks the symbol up in them, and nothing drawn depends on the bands.
   */
  datatype Store<V> = Store(
    m15: PriceFrame<V>,
    h4: PriceFrame<V>,
    m15Rsi: map<string, seq<Obs<V>>>,
    h4Rsi: map<string, seq<Obs<V>>>,
    m15RsiBands: set<string>,
    h4RsiBands: set<string>,
    entries: map<string, seq<Obs<bool>>>,
    exits: map<string, seq<Obs<bool>>>)

  predicate StoreShaped<V>(st: Store<V>) {
    Shaped(st.m15) && Shaped(st.h4)
  }

  /** `clean_entries_h4` (line 57): every symbol's entries, OR-resampled to 4 hours. */
  function EntriesH4<V>(st: Store<V>): (r: map<string, seq<Obs<bool>>>)
    ensures r.Keys == st.entries.Keys
    ensures forall c :: c in st.entries && Increasing(st.entries[c]) && st.entries[c] != [] ==>
      c in r && ResampledFrom(st.entries[c], r[c])
  {
    ResampleColumns(st.entries)
  }

  /** `clean_exits_h4` (line 58): every symbol's exits, OR-resampled to 4 hours. */
  function ExitsH4<V>(st: Store<V>): (r: map<string, seq<Obs<bool>>>)
    ensures r.Keys == st.exits.Keys
    ensures forall c :: c in st.exits && Increasing(st.exits[c]) && st.exits[c] != [] ==>
      c in r && ResampledFrom(st.exits[c], r[c])
  {
    ResampleColumns(st.exits)
  }

  /**
   * The exceptions a callback can end in: strptime's ValueError on a date,
   * the UnboundLocalError of a token that took no branch, and the KeyError of
   * a symbol missing from a table.
   */
  datatype ChartError = BadDate(text: string) | UnboundTimeframe | MissingSymbol(symbol: string)

  /** What `main_chart` hands to the charting library: the sliced candles and `dt_breaks`. */
  datatype OhlcChart<V> = OhlcChart(bars: seq<Obs<Bar<V>>>, breaks: seq<int>)

  /** What `rsi_indicator` hands to the charting library: the sliced RSI, entries and exits. */
  datatype RsiChart<V> = RsiChart(rsi: seq<Obs<V>>, entries: seq<Obs<bool>>, exits: seq<Obs<bool>>)

  /** `r` is a contiguous run of `s`, rows unchanged. */
  ghost predicate IsRun<T>(r: seq<T>, s: seq<T>) {
    exists lo, hi :: 0 <= lo <= hi <= |s| && r == s[lo..hi]
  }

  /**
   * The slice bounds of one request, as day numbers: each picker string is
   * parsed with strptime (start first), reformatted to `YYYY.MM.DD`, and that
   * text read back by pandas as a day-resolution label.
   */
  function DayBounds(start: string, end: string): (r: Result<(int, int), ChartError>)
    ensures ParseDashed(start).None? ==> r == Err(BadDate(start))
    ensures ParseDashed(start).Some? && ParseDashed(end).None? ==> r == Err(BadDate(end))
    ensures ParseDashed(start).Some? && ParseDashed(end).Some? ==>
      r == Ok((DayNumber(ParseDashed(start).value), DayNumber(ParseDashed(end).value)))
  {
    match (ParseDashed(start), ParseDashed(end))
    case (None, _) => Err(BadDate(start))
    case (_, None) => Err(BadDate(end))
    case (Some(s), Some(e)) =>
      var startKey, endKey := FormatDotted(s), FormatDotted(e);
      DottedRoundTrip(s);
      DottedRoundTrip(e);
      match (ParseDotted(startKey), ParseDotted(endKey))
      case (Some(a), Some(b)) => Ok((DayNumber(a), DayNumber(b)))
      case _ => Err(BadDate(startKey))
  }

  function PriceTable<V>(st: Store<V>, tf: Timeframe): PriceFrame<V> {
    match tf
    case H4 => st.h4
    case M15 => st.m15
  }

  predicate DatesParse(start: string, end: string) {
    ParseDashed(start).Some? && ParseDashed(end).Some?
  }

  /**
   * `main_chart` (lines 208-237): dates are parsed first, then the token
   * picks the 4-hour or 15-minute table, the symbol's candles are cut to the
   * inclusive day range, and the labels of rows without a Close become the
   * gap list.
   */
  function MainChart<V>(st: Store<V>, start: string, end: string, symbol: string, token: string)
    : (r: Result<OhlcChart<V>, ChartError>)
    requires StoreShaped(st)
    ensures ParseDashed(start).None? ==> r == Err(BadDate(start))
    ensures ParseDashed(start).Some? && ParseDashed(end).None? ==> r == Err(BadDate(end))
    ensures DatesParse(start, end) && TimeframeOf(token).None? ==> r == Err(UnboundTimeframe)
    ensures r.Ok? ==> DatesParse(start, end) && (token == "4h" || token == "15m")
    ensures DatesParse(start, end) && token == "4h" ==>
      (r.Ok? <==> HasSymbol(st.h4, symbol)) &&
      (r.Ok? ==> IsRun(r.value.bars, SymbolBars(st.h4, symbol).value))
    ensures DatesParse(start, end) && token == "15m" ==>
      (r.Ok? <==> HasSymbol(st.m15, symbol)) &&
      (r.Ok? ==> IsRun(r.value.bars, SymbolBars(st.m15, symbol).value))
    ensures r.Err? && DatesParse(start, end) && TimeframeOf(token).Some? ==> r == Err(MissingSymbol(symbol))
    ensures r.Ok? ==> forall t :: t in r.value.breaks ==>
      exists i :: 0 <= i < |r.value.bars| && r.value.bars[i].time == t && r.value.bars[i].value.close.None?
  {
    var bounds :- DayBounds(start, end);
    match TimeframeOf(token)
    case None => Err(UnboundTimeframe)
    case Some(tf) =>
      match SymbolBars(PriceTable(st, tf), symbol)
      case None => Err(MissingSymbol(symbol))
      case Some(bars) =>
        var slice := SliceByDay(bars, bounds.0, bounds.1);
        Ok(OhlcChart(slice, Breaks(slice)))
  }

  /**
   * The chart window on a strictly increasing index: exactly the symbol's
   * candles dated within the picked days, in index order, values unchanged;
   * the gap list is exactly the labels of those candles whose Close is
   * missing, in index order, and together with the non-null-Close labels it
   * covers the window without overlap.
   */
  lemma MainChartWindow<V>(st: Store<V>, start: string, end: string, symbol: string, token: string, tf: Timeframe,
                           first: int, last: int)
    requires StoreShaped(st) && DayBounds(start, end) == Ok((first, last)) && TimeframeOf(token) == Some(tf)
    requires HasSymbol(PriceTable(st, tf), symbol) && IndexIncreasing(PriceTable(st, tf).index)
    ensures MainChart(st, start, end, symbol, token).Ok?
    ensures var c := MainChart(st, start, end, symbol, token).value;
      var rows := SymbolBars(PriceTable(st, tf), symbol).value;
      && Increasing(c.bars)
      && (forall x :: x in c.bars <==> x in rows && InDays(x.time, first, last))
      && (forall t :: t in c.breaks <==>
            exists i :: 0 <= i < |c.bars| && c.bars[i].time == t && c.bars[i].value.close.None?)
      && (forall t :: t in Times(c.bars) <==> t in c.breaks || t in ObservedTimes(c.bars))
      && (forall t :: !(t in c.breaks && t in ObservedTimes(c.bars)))
      && (forall i, j :: 0 <= i < j < |c.breaks| ==> c.breaks[i] < c.breaks[j])
  {
    var rows := SymbolBars(PriceTable(st, tf), symbol).value;
    var slice := SliceByDay(rows, first, last);
    assert MainChart(st, start, end, symbol, token) == Ok(OhlcChart(slice, Breaks(slice)));
    SliceContents(rows, first, last);
    BreaksExact(slice);
    BreaksPartition(slice);
  }

  /**
   * `contruct_rsi` with `rsi_indicator` (lines 257-261, 269-272, 289-301):
   * the token picks the 15-minute RSI and signals or the 4-hour RSI and
   * resampled signals (an unknown token fails before any date is read),
   * then the dates are parsed and all three series cut to the day range.
   */
  function ConstructRsi<V>(st: Store<V>, start: string, end: string, symbol: string, token: string)
    : (r: Result<RsiChart<V>, ChartError>)
    ensures TimeframeOf(token).None? ==> r == Err(UnboundTimeframe)
    ensures TimeframeOf(token).Some? && !HasRsiInputs(st, TimeframeOf(token).value, symbol) ==>
      r == Err(MissingSymbol(symbol))
    ensures TimeframeOf(token).Some? && HasRsiInputs(st, TimeframeOf(token).value, symbol) && ParseDashed(start).None?
      ==> r == Err(BadDate(start))
    ensures TimeframeOf(token).Some? && HasRsiInputs(st, TimeframeOf(token).value, symbol) &&
      ParseDashed(start).Some? && ParseDashed(end).None?
      ==> r == Err(BadDate(end))
    ensures r.Ok? ==> DatesParse(start, end) && (token == "4h" || token == "15m")
    ensures token == "15m" && DatesParse(start, end) ==>
      (r.Ok? <==> symbol in st.m15Rsi && symbol in st.m15RsiBands && symbol in st.entries && symbol in st.exits) &&
      (r.Ok? ==> IsRun(r.value.rsi, st.m15Rsi[symbol]) && IsRun(r.value.entries, st.entries[symbol]) &&
                 IsRun(r.value.exits, st.exits[symbol]))
    ensures token == "4h" && DatesParse(start, end) ==>
      (r.Ok? <==> symbol in st.h4Rsi && symbol in st.h4RsiBands && symbol in st.entries && symbol in st.exits) &&
      (r.Ok? ==> IsRun(r.value.rsi, st.h4Rsi[symbol]) && IsRun(r.value.entries, ResampleAny(st.entries[symbol])) &&
                 IsRun(r.value.exits, ResampleAny(st.exits[symbol])))
  {
    match TimeframeOf(token)
    case None => Err(UnboundTimeframe)
    case Some(tf) =>
      var rsiTable, entryTable, exitTable := RsiTable(st, tf), EntryTable(st, tf), ExitTable(st, tf);
      if symbol !in rsiTable then Err(MissingSymbol(symbol))
      else if symbol !in BandSymbols(st, tf) then Err(MissingSymbol(symbol))
      else if symbol !in entryTable then Err(MissingSymbol(symbol))
      else if symbol !in exitTable then Err(MissingSymbol(symbol))
      else
        var bounds :- DayBounds(start, end);
        Ok(RsiChart(
          SliceByDay(rsiTable[symbol], bounds.0, bounds.1),
          SliceByDay(entryTable[symbol], bounds.0, bounds.1),
          SliceByDay(exitTable[symbol], bounds.0, bounds.1)))
  }

  function RsiTable<V>(st: Store<V>, tf: Timeframe): map<string, seq<Obs<V>>> {
    if tf == M15 then st.m15Rsi else st.h4Rsi
  }

  /** The symbols of the RSI band table the timeframe picks (`m15_bbands_rsi` or `h4_bbands_rsi`). */
  function BandSymbols<V>(st: Store<V>, tf: Timeframe): set<string> {
    if tf == M15 then st.m15RsiBands else st.h4RsiBands
  }

  /** Every lookup of lines 291-294 or 296-299 finds the symbol. */
  predicate HasRsiInputs<V>(st: Store<V>, tf: Timeframe, symbol: string) {
    symbol in RsiTable(st, tf) && symbol in BandSymbols(st, tf) && symbol in st.entries && symbol in st.exits
  }

  function EntryTable<V>(st: Store<V>, tf: Timeframe): map<string, seq<Obs<bool>>> {
    if tf == M15 then st.entries else EntriesH4(st)
  }

  function ExitTable<V>(st: Store<V>, tf: Timeframe): map<string, seq<Obs<bool>>> {
    if tf == M15 then st.exits else ExitsH4(st)
  }

  /**
   * The three series of the RSI chart on increasing indexes: each holds
   * exactly the rows of its table dated within the picked days, in order.
   */
  lemma RsiChartWindow<V>(st: Store<V>, start: string, end: string, symbol: string, token: string, tf: Timeframe,
                          first: int, last: int)
    requires DayBounds(start, end) == Ok((first, last)) && TimeframeOf(token) == Some(tf)
    requires HasRsiInputs(st, tf, symbol)
    requires Increasing(RsiTable(st, tf)[symbol]) && Increasing(st.entries[symbol]) && Increasing(st.exits[symbol])
    ensures ConstructRsi(st, start, end, symbol, token).Ok?
    ensures var c := ConstructRsi(st, start, end, symbol, token).value;
      && symbol in EntryTable(st, tf) && symbol in ExitTable(st, tf)
      && Increasing(c.rsi) && Increasing(c.entries) && Increasing(c.exits)
      && (forall x :: x in c.rsi <==> x in RsiTable(st, tf)[symbol] && InDays(x.time, first, last))
      && (forall x :: x in c.entries <==> x in EntryTable(st, tf)[symbol] && InDays(x.time, first, last))
      && (forall x :: x in c.exits <==> x in ExitTable(st, tf)[symbol] && InDays(x.time, first, last))
  {
    var rsi, entries, exits := RsiTable(st, tf)[symbol], EntryTable(st, tf)[symbol], ExitTable(st, tf)[symbol];
    ConstructRsiValue(st, start, end, symbol, token, tf, first, last);
    SignalTablesIncreasing(st, tf, symbol);
    SlicedChartWindow(rsi, entries, exits, first, last);
  }

  /** The three day slices of a chart keep index order and hold exactly the rows inside the window. */
  lemma SlicedChartWindow<V>(rsi: seq<Obs<V>>, entries: seq<Obs<bool>>, exits: seq<Obs<bool>>, first: int, last: int)
    requires Increasing(rsi) && Increasing(entries) && Increasing(exits)
    ensures var c := RsiChart(SliceByDay(rsi, first, last), SliceByDay(entries, first, last), SliceByDay(exits, first, last));
      && Increasing(c.rsi) && Increasing(c.entries) && Increasing(c.exits)
      && (forall x :: x in c.rsi <==> x in rsi && InDays(x.time, first, last))
      && (forall x :: x in c.entries <==> x in entries && InDays(x.time, first, last))
      && (forall x :: x in c.exits <==> x in exits && InDays(x.time, first, last))
  {
    SliceContents(rsi, first, last);
    SliceContents(entries, first, last);
    SliceContents(exits, first, last);
  }


  /** The resampled signal series is labelled by strictly increasing bucket starts. */
  lemma ResampledIncreasing(s: seq<Obs<bool>>)
    requires Increasing(s)
    ensures Increasing(ResampleAny(s))
  {
    if s != [] {
      ResampleAnyCorrect(s);
    }
  }

  /**
   * A day window of a resampled signal series holds exactly the buckets
   * that start on one of the days, each true iff some base signal of its
   * bucket is true.
   */
  lemma ResampledWindow(base: seq<Obs<bool>>, first: int, last: int)
    requires Increasing(base) && base != []
    ensures var w := SliceByDay(ResampleAny(base), first, last);
      && (forall x :: x in w <==> x in ResampleAny(base) && InDays(x.time, first, last))
      && (forall x :: x in w ==>
            (x.time % BucketSeconds == 0 && (x.value <==> AnyTrueIn(base, BucketOf(x.time)))))
  {
    var full := ResampleAny(base);
    ResampleAnyCorrect(base);
    ResampledIncreasing(base);
    SliceContents(full, first, last);
    forall x | x in full
      ensures x.time % BucketSeconds == 0 && (x.value <==> AnyTrueIn(base, BucketOf(x.time)))
    {
      var k :| 0 <= k < |full| && full[k] == x;
      var b := BucketOf(base[0].time) + k;
      assert x.time == b * BucketSeconds;
      assert BucketOf(x.time) == b;
    }
  }

  /** The signal series a timeframe reads stay strictly increasing, resampled or not. */
  lemma SignalTablesIncreasing<V>(st: Store<V>, tf: Timeframe, symbol: string)
    requires symbol in st.entries && symbol in st.exits
    requires Increasing(st.entries[symbol]) && Increasing(st.exits[symbol])
    ensures symbol in EntryTable(st, tf) && symbol in ExitTable(st, tf)
    ensures Increasing(EntryTable(st, tf)[symbol]) && Increasing(ExitTable(st, tf)[symbol])
  {
    if tf == H4 {
      assert EntryTable(st, tf)[symbol] == ResampleAny(st.entries[symbol]);
      assert ExitTable(st, tf)[symbol] == ResampleAny(st.exits[symbol]);
      ResampledIncreasing(st.entries[symbol]);
      ResampledIncreasing(st.exits[symbol]);
    }
  }

  /** The RSI chart of a request whose dates, timeframe and symbol all resolve: the three day slices. */
  lemma ConstructRsiValue<V>(st: Store<V>, start: string, end: string, symbol: string, token: string, tf: Timeframe,
                             first: int, last: int)
    requires DayBounds(start, end) == Ok((first, last)) && TimeframeOf(token) == Some(tf)
    requires HasRsiInputs(st, tf, symbol)
    ensures symbol in EntryTable(st, tf) && symbol in ExitTable(st, tf)
    ensures ConstructRsi(st, start, end, symbol, token) == Ok(RsiChart(
      SliceByDay(RsiTable(st, tf)[symbol], first, last),
      SliceByDay(EntryTable(st, tf)[symbol], first, last),
      SliceByDay(ExitTable(st, tf)[symbol], first, last)))
  {
  }

  /**
   * On the 4-hour RSI view, an entry (exit) bar of the chart window is true
   * iff some 15-minute entry (exit) of its 4-hour bucket is true, and the
   * window holds exactly the buckets that start on one of the picked days.
   */
  lemma RsiH4SignalsWindow<V>(st: Store<V>, start: string, end: string, symbol: string, first: int, last: int)
    requires DayBounds(start, end) == Ok((first, last))
    requires HasRsiInputs(st, H4, symbol)
    requires Increasing(st.entries[symbol]) && st.entries[symbol] != []
    requires Increasing(st.exits[symbol]) && st.exits[symbol] != []
    ensures ConstructRsi(st, start, end, symbol, "4h").Ok?
    ensures var c := ConstructRsi(st, start, end, symbol, "4h").value;
      && (forall x :: x in c.entries <==> x in ResampleAny(st.entries[symbol]) && InDays(x.time, first, last))
      && (forall x :: x in c.entries ==>
            (x.time % BucketSeconds == 0 && (x.value <==> AnyTrueIn(st.entries[symbol], BucketOf(x.time)))))
      && (forall x :: x in c.exits <==> x in ResampleAny(st.exits[symbol]) && InDays(x.time, first, last))
      && (forall x :: x in c.exits ==>
            (x.time % BucketSeconds == 0 && (x.value <==> AnyTrueIn(st.exits[symbol], BucketOf(x.time)))))
  {
    ConstructRsiValue(st, start, end, symbol, "4h", H4, first, last);
    assert EntryTable(st, H4)[symbol] == ResampleAny(st.entries[symbol]);
    assert ExitTable(st, H4)[symbol] == ResampleAny(st.exits[symbol]);
    ResampledWindow(st.entries[symbol], first, last);
    ResampledWindow(st.exits[symbol], first, last);
  }
}
