/**
 * The figures page one shows for a processed table: `calculate_metrics`
 * (first and last close, change, percentage change, extremes, total
 * volume) and the per-ticker snapshot the main area builds for each
 * selected ticker (last-row fields, mean close, open-to-close change).
 */
module PageOneMetrics {
  import opened Wrappers
  import opened Numbers
  import opened Frames

  function Closes(qs: seq<Quote>): (r: seq<real>)
    ensures |r| == |qs| && forall k :: 0 <= k < |qs| ==> r[k] == qs[k].close
  {
    seq(|qs|, k requires 0 <= k < |qs| => qs[k].close)
  }

  function Highs(qs: seq<Quote>): (r: seq<real>)
    ensures |r| == |qs| && forall k :: 0 <= k < |qs| ==> r[k] == qs[k].high
  {
    seq(|qs|, k requires 0 <= k < |qs| => qs[k].high)
  }

  function Lows(qs: seq<Quote>): (r: seq<real>)
    ensures |r| == |qs| && forall k :: 0 <= k < |qs| ==> r[k] == qs[k].low
  {
    seq(|qs|, k requires 0 <= k < |qs| => qs[k].low)
  }

  function Volumes(qs: seq<Quote>): (r: seq<real>)
    ensures |r| == |qs| && forall k :: 0 <= k < |qs| ==> r[k] == qs[k].volume
  {
    seq(|qs|, k requires 0 <= k < |qs| => qs[k].volume)
  }

  function AllQuotes(rows: seq<TickerBar>): (r: seq<Quote>)
    ensures |r| == |rows| && forall k :: 0 <= k < |rows| ==> r[k] == rows[k].quote
  {
    seq(|rows|, k requires 0 <= k < |rows| => rows[k].quote)
  }

  function BarQuotes(bars: seq<Bar>): (r: seq<Quote>)
    ensures |r| == |bars| && forall k :: 0 <= k < |bars| ==> r[k] == bars[k].quote
  {
    seq(|bars|, k requires 0 <= k < |bars| => bars[k].quote)
  }

  /** Python truthiness of the optional ticker argument: None and "" are false. */
  predicate Truthy(ticker: Option<Ticker>) {
    ticker.Some? && ticker.value != ""
  }

  /** The rows `calculate_metrics` works on: the table filtered by ticker
      when a ticker is given and the table has a Ticker column, the whole
      table otherwise. */
  function Selected(t: LongTable, ticker: Option<Ticker>): (r: seq<Quote>)
    ensures t.Untagged? ==> r == BarQuotes(t.bars)
    ensures t.Tagged? && !Truthy(ticker) ==> r == AllQuotes(t.rows)
    ensures t.Tagged? && Truthy(ticker) ==> r == QuotesOf(t.rows, ticker.value)
    ensures t.Tagged? && Truthy(ticker) ==>
      forall q :: q in r <==> exists k :: 0 <= k < |t.rows| && t.rows[k].ticker == ticker.value && t.rows[k].quote == q
  {
    match t
    case Untagged(bars) => BarQuotes(bars)
    case Tagged(rows) => if Truthy(ticker) then QuotesOf(rows, ticker.value) else AllQuotes(rows)
  }

  datatype Metrics = Metrics(lastClose: real, change: real, pctChange: Float, high: real, low: real, volume: real)

  /** `(change / prev_close) * 100` on floats: infinite or NaN when the first close is zero. */
  function PercentChange(first: real, last: real): (p: Float)
    ensures p.Num? <==> first != 0.0
    ensures p.Num? ==> p.v * first == (last - first) * 100.0
    ensures p.Num? ==> p.v == (last - first) / first * 100.0
    ensures p == NaN <==> first == 0.0 && last == 0.0
  {
    var d := Div(last - first, first);
    var p := Scale(d, 100.0);
    assert p.Num? ==> p.v * first == (d.v * first) * 100.0;
    p
  }

  /** The largest Máxima: at least every row's, and attained by one. */
  function HighOf(qs: seq<Quote>): (h: real)
    requires qs != []
    ensures forall k :: 0 <= k < |qs| ==> qs[k].high <= h
    ensures exists k :: 0 <= k < |qs| && qs[k].high == h
  {
    var hs := Highs(qs);
    var h := MaxOf(hs);
    assert forall k :: 0 <= k < |qs| ==> hs[k] == qs[k].high;
    h
  }

  /** The smallest Mínima: at most every row's, and attained by one. */
  function LowOf(qs: seq<Quote>): (l: real)
    requires qs != []
    ensures forall k :: 0 <= k < |qs| ==> l <= qs[k].low
    ensures exists k :: 0 <= k < |qs| && qs[k].low == l
  {
    var ls := Lows(qs);
    var l := MinOf(ls);
    assert forall k :: 0 <= k < |qs| ==> ls[k] == qs[k].low;
    l
  }

  /** The figures of a non-empty selection. */
  function MetricsOf(qs: seq<Quote>): (m: Metrics)
    requires qs != []
    ensures m.lastClose == qs[|qs| - 1].close
    ensures m.change == m.lastClose - qs[0].close
    ensures m.pctChange == PercentChange(qs[0].close, m.lastClose)
    ensures forall k :: 0 <= k < |qs| ==> qs[k].high <= m.high
    ensures exists k :: 0 <= k < |qs| && qs[k].high == m.high
    ensures forall k :: 0 <= k < |qs| ==> m.low <= qs[k].low
    ensures exists k :: 0 <= k < |qs| && qs[k].low == m.low
    ensures m.volume == Sum(Volumes(qs))
  {
    var first, last := qs[0].close, qs[|qs| - 1].close;
    Metrics(last, last - first, PercentChange(first, last), HighOf(qs), LowOf(qs), Sum(Volumes(qs)))
  }

  /** `calculate_metrics`. An empty selection makes `iloc[-1]` raise, which
      is the error case. */
  function CalculateMetrics(t: LongTable, ticker: Option<Ticker>): (r: Result<Metrics, string>)
    ensures r.Ok? <==> Selected(t, ticker) != []
    ensures r.Ok? ==> r.value == MetricsOf(Selected(t, ticker))
  {
    var qs := Selected(t, ticker);
    if qs == [] then Err("single positional indexer is out-of-bounds") else Ok(MetricsOf(qs))
  }

  /** One selected row: no change, and a zero percentage unless the close is zero. */
  lemma SingleRowNoChange(q: Quote)
    ensures MetricsOf([q]).change == 0.0
    ensures MetricsOf([q]).pctChange == if q.close != 0.0 then Num(0.0) else NaN
  {
    PercentOfNoChange(q.close);
  }

  lemma PercentOfNoChange(c: real)
    ensures PercentChange(c, c) == if c != 0.0 then Num(0.0) else NaN
  {
    var p := PercentChange(c, c);
    if c != 0.0 {
      assert p.v == (c - c) / c * 100.0;
    }
  }

  /** Without a Ticker column the ticker argument is ignored. */
  lemma UntaggedIgnoresTicker(bars: seq<Bar>, a: Option<Ticker>, b: Option<Ticker>)
    ensures CalculateMetrics(Untagged(bars), a) == CalculateMetrics(Untagged(bars), b)
  {
  }

  /** With a ticker given, the metrics read the first and the last row of
      that ticker, wherever the other tickers' rows lie. */
  lemma TaggedEnds(x: TickerBar, rows: seq<TickerBar>, y: TickerBar, t: Ticker)
    requires t != "" && x.ticker == t && y.ticker == t
    ensures var r := CalculateMetrics(Tagged([x] + rows + [y]), Some(t));
      r.Ok? && r.value.lastClose == y.quote.close && r.value.change == y.quote.close - x.quote.close
  {
    QuotesOfAppend([x] + rows, [y], t);
    QuotesOfAppend([x], rows, t);
    QuotesOfSingle(x, t);
    QuotesOfSingle(y, t);
  }

  /** The per-ticker figures of the main area (page one, the selected-tickers loop). */
  datatype Snapshot = Snapshot(
    lastClose: real, lastOpen: real, lastHigh: real, lastLow: real, lastVolume: real,
    timeAverage: real, varDelta: Float)

  /** The snapshot of one ticker's non-empty rows. `varDelta` is the
      open-to-close ratio of the last row, before percentage formatting. */
  function SnapshotOf(qs: seq<Quote>): (s: Snapshot)
    requires qs != []
    ensures s.lastClose == qs[|qs| - 1].close && s.lastOpen == qs[|qs| - 1].open
    ensures s.lastHigh == qs[|qs| - 1].high && s.lastLow == qs[|qs| - 1].low
    ensures s.lastVolume == qs[|qs| - 1].volume
    ensures s.timeAverage * (|qs| as real) == Sum(Closes(qs))
    ensures s.varDelta.Num? <==> s.lastOpen != 0.0
    ensures s.varDelta.Num? ==> s.varDelta.v * s.lastOpen == s.lastClose - s.lastOpen
  {
    var last := qs[|qs| - 1];
    Snapshot(last.close, last.open, last.high, last.low, last.volume,
             Mean(Closes(qs)), Div(last.close - last.open, last.open))
  }

  /** The mean close lies between the lowest and the highest close. */
  lemma SnapshotAverageBounded(qs: seq<Quote>)
    requires qs != []
    ensures MinOf(Closes(qs)) <= SnapshotOf(qs).timeAverage <= MaxOf(Closes(qs))
  {
    MeanBetweenMinAndMax(Closes(qs));
  }

  /** The tickers of `selected` that have at least one row. */
  function WithRows(rows: seq<TickerBar>, selected: seq<Ticker>): set<Ticker> {
    set t | t in selected && QuotesOf(rows, t) != []
  }

  /** The loop over the selected tickers: tickers without rows are skipped,
      every other one gets the snapshot of its own rows. */
  method TickerSnapshots(rows: seq<TickerBar>, selected: seq<Ticker>) returns (metrics: map<Ticker, Snapshot>)
    ensures metrics.Keys == WithRows(rows, selected)
    ensures forall t :: t in metrics ==> QuotesOf(rows, t) != [] && metrics[t] == SnapshotOf(QuotesOf(rows, t))
  {
    metrics := map[];
    for i := 0 to |selected|
      invariant metrics.Keys == WithRows(rows, selected[..i])
      invariant forall t :: t in metrics ==> QuotesOf(rows, t) != [] && metrics[t] == SnapshotOf(QuotesOf(rows, t))
    {
      var ticker := selected[i];
      assert selected[..i + 1] == selected[..i] + [ticker];
      var dataTicker := QuotesOf(rows, ticker);
      if |dataTicker| == 0 {
        continue;
      }
      metrics := metrics[ticker := SnapshotOf(dataTicker)];
    }
    assert selected[..|selected|] == selected;
  }

  /** A ticker's snapshot depends only on its own rows: rows of other
      tickers, wherever they are inserted in the table, leave it unchanged. */
  lemma QuotesOfOthers(a: seq<TickerBar>, extra: seq<TickerBar>, b: seq<TickerBar>, t: Ticker)
    requires forall k :: 0 <= k < |extra| ==> extra[k].ticker != t
    ensures QuotesOf(a + extra + b, t) == QuotesOf(a + b, t)
  {
    QuotesOfAppend(a + extra, b, t);
    QuotesOfAppend(a, extra, t);
    QuotesOfAppend(a, b, t);
    QuotesOfNone(extra, t);
  }

  lemma {:induction false} QuotesOfNone(rows: seq<TickerBar>, t: Ticker)
    requires forall k :: 0 <= k < |rows| ==> rows[k].ticker != t
    ensures QuotesOf(rows, t) == []
  {
    if rows != [] {
      QuotesOfNone(rows[1..], t);
    }
  }
}
