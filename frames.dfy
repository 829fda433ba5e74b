/**
 * The tables the dashboard passes around. A download for a list of tickers
 * is ticker-keyed: its columns are grouped by ticker, so one row holds one
 * OHLCV quote per ticker. After reshaping, a table is long: one row per
 * (timestamp, ticker), with or without a Ticker column.
 */
module Frames {
  import opened Wrappers

  type Ticker = string

  /** One OHLCV record. Before `process_data` the fields are the columns
      Open, High, Low, Close and Volume; after it, Abertura, Máxima, Mínima,
      Fechamento and Volume. */
  datatype Quote = Quote(open: real, high: real, low: real, close: real, volume: real)

  /** A row of a ticker-keyed table: `quotes[i]` belongs to the i-th ticker of the column level. */
  datatype WideRow = WideRow(time: int, quotes: seq<Quote>)

  /** A row of a single-ticker table without a Ticker column. */
  datatype Bar = Bar(time: int, quote: Quote)

  /** A row of a long table with a Ticker column. */
  datatype TickerBar = TickerBar(time: int, ticker: Ticker, quote: Quote)

  datatype LongTable =
    | Untagged(bars: seq<Bar>)
    | Tagged(rows: seq<TickerBar>)

  /** A table as `flatten_data` receives it. `Grouped` has multi-level columns
      whose ticker level is `levels`; `tag` is the constant Ticker column that
      `flatten_data` attaches when that level is empty. */
  datatype Frame =
    | Grouped(levels: seq<Ticker>, rows: seq<WideRow>, tag: Option<Ticker>)
    | Long(table: LongTable)

  /** Every row of a grouped table has one quote per ticker of its level. */
  predicate WellFormed(f: Frame) {
    f.Grouped? ==> forall k :: 0 <= k < |f.rows| ==> |f.rows[k].quotes| == |f.levels|
  }

  /** The quotes of the rows that carry a given ticker, in table order. */
  function QuotesOf(rows: seq<TickerBar>, t: Ticker): (r: seq<Quote>)
    ensures |r| <= |rows|
    ensures forall q :: q in r <==> exists k :: 0 <= k < |rows| && rows[k].ticker == t && rows[k].quote == q
  {
    if rows == [] then []
    else
      var rest := QuotesOf(rows[1..], t);
      assert forall k :: 1 <= k < |rows| ==> rows[k] == rows[1..][k - 1];
      if rows[0].ticker == t then [rows[0].quote] + rest else rest
  }

  /** One row: its quote when it carries the ticker, nothing otherwise. */
  lemma QuotesOfSingle(x: TickerBar, t: Ticker)
    ensures QuotesOf([x], t) == if x.ticker == t then [x.quote] else []
  {
  }

  /** The filter distributes over concatenation of tables, so it keeps the
      table's order and every matching row once per occurrence. */
  lemma {:induction false} QuotesOfAppend(a: seq<TickerBar>, b: seq<TickerBar>, t: Ticker)
    ensures QuotesOf(a + b, t) == QuotesOf(a, t) + QuotesOf(b, t)
  {
    if a == [] {
      assert a + b == b;
    } else {
      assert (a + b)[0] == a[0];
      assert (a + b)[1..] == a[1..] + b;
      QuotesOfAppend(a[1..], b, t);
    }
  }
}
