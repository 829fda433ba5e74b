/**
 * Table reshaping of src/components/page_one.py: `flatten_data` turns a
 * ticker-keyed table into long rows tagged with their ticker, and
 * `process_data` relabels the columns and derives the display-date column.
 */
module PageOneReshape {
  import opened Wrappers
  import opened Frames
  import opened DisplayDate
  import PageOneFetch

  /** `data.xs(ticker, axis=1, level=1)` with the Ticker column added: the
      i-th ticker's quotes, one row per timestamp. */
  function TickerBlock(rows: seq<WideRow>, i: nat, ticker: Ticker): (b: seq<TickerBar>)
    requires forall k :: 0 <= k < |rows| ==> i < |rows[k].quotes|
    ensures |b| == |rows|
  {
    seq(|rows|, k requires 0 <= k < |rows| => TickerBar(rows[k].time, ticker, rows[k].quotes[i]))
  }

  /** One block per ticker of the level, in level order. */
  function TickerBlocks(levels: seq<Ticker>, rows: seq<WideRow>): (bs: seq<seq<TickerBar>>)
    requires forall k :: 0 <= k < |rows| ==> |rows[k].quotes| == |levels|
    ensures |bs| == |levels|
    ensures forall i :: 0 <= i < |levels| ==> |bs[i]| == |rows|
  {
    seq(|levels|, i requires 0 <= i < |levels| => TickerBlock(rows, i, levels[i]))
  }

  /** `pd.concat` of the blocks. */
  function ConcatBars(bs: seq<seq<TickerBar>>): seq<TickerBar> {
    if bs == [] then [] else ConcatBars(bs[..|bs| - 1]) + bs[|bs| - 1]
  }

  /** Every row of a long table without a Ticker column, tagged with `t`. */
  function TagAll(bars: seq<Bar>, t: Ticker): (r: seq<TickerBar>)
    ensures |r| == |bars|
    ensures forall k :: 0 <= k < |bars| ==> r[k].ticker == t && r[k].time == bars[k].time && r[k].quote == bars[k].quote
  {
    seq(|bars|, k requires 0 <= k < |bars| => TickerBar(bars[k].time, t, bars[k].quote))
  }

  /** What `flatten_data(data, tickers)` returns. */
  function Flattened(data: Frame, tickers: seq<Ticker>): (r: Frame)
    requires WellFormed(data)
    ensures data.Grouped? && data.levels != [] ==> r.Long? && r.table.Tagged?
    ensures data.Grouped? && data.levels == [] ==> r.Grouped? && r.rows == data.rows
    ensures data.Long? && tickers != [] ==> r.Long? && r.table.Tagged?
    ensures data.Long? && tickers == [] ==> r == data
  {
    match data
    case Grouped(levels, rows, _) =>
      if levels != [] then Long(Tagged(ConcatBars(TickerBlocks(levels, rows))))
      else if tickers != [] then Grouped(levels, rows, Some(tickers[0]))
      else data
    case Long(Untagged(bars)) =>
      if tickers != [] then Long(Tagged(TagAll(bars, tickers[0]))) else data
    case Long(Tagged(_)) => data
  }

  /** `flatten_data`: the loop over the ticker level collects one block per
      ticker and concatenates them. */
  method FlattenData(data: Frame, tickers: seq<Ticker>) returns (r: Frame)
    requires WellFormed(data)
    ensures r == Flattened(data, tickers)
  {
    match data
    case Grouped(levels, rows, tag) =>
      var flattenedData: seq<seq<TickerBar>> := [];
      for i := 0 to |levels|
        invariant |flattenedData| == i
        invariant forall j :: 0 <= j < i ==> flattenedData[j] == TickerBlock(rows, j, levels[j])
      {
        var tickerData := TickerBlock(rows, i, levels[i]);
        flattenedData := flattenedData + [tickerData];
      }
      assert flattenedData == TickerBlocks(levels, rows);
      if flattenedData != [] {
        r := Long(Tagged(ConcatBars(flattenedData)));
      } else if tickers != [] {
        r := Grouped(levels, rows, Some(tickers[0]));
      } else {
        r := data;
      }
    case Long(Untagged(bars)) =>
      if tickers != [] {
        r := Long(Tagged(TagAll(bars, tickers[0])));
      } else {
        r := data;
      }
    case Long(Tagged(_)) =>
      r := data;
  }

  /** Where block `i` starts when every block has `n` rows. */
  function BlockStart(i: nat, n: nat): nat {
    if i == 0 then 0 else BlockStart(i - 1, n) + n
  }

  lemma {:induction false} BlockStartIsProduct(i: nat, n: nat)
    ensures BlockStart(i, n) == i * n
  {
    if i > 0 {
      BlockStartIsProduct(i - 1, n);
      assert (i - 1) * n + n == i * n;
    }
  }

  lemma {:induction false} BlockStartBelow(i: nat, m: nat, n: nat)
    requires i < m
    ensures BlockStart(i, n) + n <= BlockStart(m, n)
  {
    if i < m - 1 {
      BlockStartBelow(i, m - 1, n);
    }
  }

  /** Concatenating blocks of `n` rows each gives BlockStart(|bs|, n) rows. */
  lemma {:induction false} ConcatBlocksLength(bs: seq<seq<TickerBar>>, n: nat)
    requires forall i :: 0 <= i < |bs| ==> |bs[i]| == n
    ensures |ConcatBars(bs)| == BlockStart(|bs|, n)
  {
    if bs != [] {
      ConcatBlocksLength(bs[..|bs| - 1], n);
    }
  }

  /** Row k of block i sits at BlockStart(i, n) + k of the concatenation. */
  lemma {:induction false} ConcatBlocksAt(bs: seq<seq<TickerBar>>, n: nat, i: nat, k: nat)
    requires forall j :: 0 <= j < |bs| ==> |bs[j]| == n
    requires i < |bs| && k < n
    ensures BlockStart(i, n) + k < |ConcatBars(bs)|
    ensures ConcatBars(bs)[BlockStart(i, n) + k] == bs[i][k]
  {
    var init := bs[..|bs| - 1];
    var m := |init|;
    ConcatBlocksLength(init, n);
    assert ConcatBars(bs) == ConcatBars(init) + bs[m];
    if i < m {
      BlockStartBelow(i, m, n);
      ConcatBlocksAt(init, n, i, k);
      assert bs[i] == init[i];
    }
  }

  /** A ticker-keyed table with at least one ticker flattens into a tagged
      long table of |levels| x |rows| rows. */
  lemma FlattenedGrouped(levels: seq<Ticker>, rows: seq<WideRow>, tag: Option<Ticker>, tickers: seq<Ticker>)
    requires levels != []
    requires WellFormed(Grouped(levels, rows, tag))
    ensures Flattened(Grouped(levels, rows, tag), tickers).Long?
    ensures Flattened(Grouped(levels, rows, tag), tickers).table.Tagged?
    ensures |Flattened(Grouped(levels, rows, tag), tickers).table.rows| == |levels| * |rows|
  {
    var bs := TickerBlocks(levels, rows);
    ConcatBlocksLength(bs, |rows|);
    BlockStartIsProduct(|levels|, |rows|);
  }

  /** Block i holds the i-th ticker's quotes, every row tagged with that
      ticker: row k of block i sits at position i * |rows| + k. */
  lemma FlattenedRowAt(levels: seq<Ticker>, rows: seq<WideRow>, tag: Option<Ticker>, tickers: seq<Ticker>, i: nat, k: nat)
    requires WellFormed(Grouped(levels, rows, tag))
    requires i < |levels| && k < |rows|
    ensures Flattened(Grouped(levels, rows, tag), tickers).Long?
    ensures i * |rows| + k < |Flattened(Grouped(levels, rows, tag), tickers).table.rows|
    ensures Flattened(Grouped(levels, rows, tag), tickers).table.rows[i * |rows| + k]
      == TickerBar(rows[k].time, levels[i], rows[k].quotes[i])
  {
    var bs := TickerBlocks(levels, rows);
    var c := ConcatBars(bs);
    assert Flattened(Grouped(levels, rows, tag), tickers) == Long(Tagged(c));
    ConcatBlocksAt(bs, |rows|, i, k);
    BlockStartIsProduct(i, |rows|);
    assert bs[i][k] == TickerBar(rows[k].time, levels[i], rows[k].quotes[i]);
  }

  /** A flat table is tagged with the first requested ticker only when it has
      no Ticker column and some ticker was requested. */
  lemma FlattenedFlat(t: LongTable, tickers: seq<Ticker>)
    ensures var f := Flattened(Long(t), tickers);
      && (t.Untagged? && tickers != [] ==>
            f == Long(Tagged(TagAll(t.bars, tickers[0])))
            && forall k :: 0 <= k < |t.bars| ==>
                 f.table.rows[k].ticker == tickers[0]
                 && f.table.rows[k].time == t.bars[k].time
                 && f.table.rows[k].quote == t.bars[k].quote)
      && (t.Tagged? || tickers == [] ==> f == Long(t))
  {
  }

  // ---------------------------------------------------------------- process_data

  /** The header of a downloaded table: the name of its timestamp index and
      its price-level column labels. */
  datatype Header = Header(indexName: string, columns: seq<string>)

  /** What `process_data` adds and relabels: the new column labels and the
      Data column. */
  datatype Processed = Processed(columns: seq<string>, display: seq<string>)

  /** The column the display date is read from after `reset_index`. */
  function DateColumn(period: string): (c: string)
    ensures c == "Date" || c == "Datetime"
    ensures c == "Date" <==> PageOneFetch.IsChunked(period)
  {
    if PageOneFetch.IsChunked(period) then "Date" else "Datetime"
  }

  /** The relabelling of `data.rename(columns=...)`. */
  function Rename(c: string): (r: string)
    ensures r != "Open" && r != "High" && r != "Low" && r != "Close"
    ensures c != "Open" && c != "High" && c != "Low" && c != "Close" ==> r == c
  {
    if c == "Open" then "Abertura"
    else if c == "High" then "Máxima"
    else if c == "Low" then "Mínima"
    else if c == "Close" then "Fechamento"
    else c
  }

  function RenameColumns(cs: seq<string>): (r: seq<string>)
    ensures |r| == |cs|
    ensures forall k :: 0 <= k < |cs| ==> r[k] == Rename(cs[k])
  {
    seq(|cs|, k requires 0 <= k < |cs| => Rename(cs[k]))
  }

  /** Open, High, Low and Close get their Portuguese labels, Volume and every
      other label are kept, and no English price label is left. */
  lemma RenamedColumns(cs: seq<string>)
    ensures var r := RenameColumns(cs);
      && |r| == |cs|
      && (forall k :: 0 <= k < |cs| && cs[k] == "Open" ==> r[k] == "Abertura")
      && (forall k :: 0 <= k < |cs| && cs[k] == "High" ==> r[k] == "Máxima")
      && (forall k :: 0 <= k < |cs| && cs[k] == "Low" ==> r[k] == "Mínima")
      && (forall k :: 0 <= k < |cs| && cs[k] == "Close" ==> r[k] == "Fechamento")
      && (forall k :: 0 <= k < |cs| && cs[k] !in {"Open", "High", "Low", "Close"} ==> r[k] == cs[k])
      && (forall k :: 0 <= k < |cs| ==> r[k] !in {"Open", "High", "Low", "Close"})
  {
  }

  /**
   * `process_data`: the index becomes the first column, a Data column is
   * appended and the price columns are relabelled. The Data column is read
   * from Datetime for the short periods and from Date for the long ones; a
   * table whose index has the other name raises a KeyError. `clock` is the
   * São Paulo wall-clock reading of a timestamp.
   */
  function ProcessData(h: Header, times: seq<int>, period: string, clock: int -> DateTime): (r: Result<Processed, string>)
    ensures r.Ok? <==> h.indexName == DateColumn(period)
    ensures r.Ok? ==>
      && r.value.columns == [h.indexName] + RenameColumns(h.columns) + ["Data"]
      && |r.value.display| == |times|
      && forall k :: 0 <= k < |times| ==> Parse(r.value.display[k]) == Some(clock(times[k]))
  {
    if h.indexName != DateColumn(period) then Err("KeyError")
    else
      var display := seq(|times|, k requires 0 <= k < |times| => Format(clock(times[k])));
      assert forall k :: 0 <= k < |times| ==> Parse(display[k]) == Some(clock(times[k])) by {
        forall k | 0 <= k < |times| ensures Parse(display[k]) == Some(clock(times[k])) {
          FormatRoundTrip(clock(times[k]));
        }
      }
      Ok(Processed([h.indexName] + RenameColumns(h.columns) + ["Data"], display))
  }
}
