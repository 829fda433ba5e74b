/**
 * `get_performance_summary` (src/utils/helpers.py): per-ticker returns over
 * a long price table. The table is filtered to the requested tickers,
 * pivoted to one column per ticker (rows sorted by datetime), and each
 * column, with its missing values dropped, yields one summary row when it
 * holds at least two prices. Any exception turns the whole summary into an
 * empty table.
 */
module Performance {
  import opened Wrappers
  import opened Numbers

  /** One row of the price table: `price` is the value of the chosen price
      column, None where it is missing (NaN). */
  datatype PricePoint = PricePoint(datetime: int, symbol: string, price: Option<real>)

  /** `price_data[price_data['symbol'].isin(tickers)]`, in table order. */
  function Filtered(data: seq<PricePoint>, tickers: seq<string>): (r: seq<PricePoint>)
    ensures |r| <= |data|
    ensures forall p :: p in r <==> p in data && p.symbol in tickers
  {
    if data == [] then []
    else
      var init := Filtered(data[..|data| - 1], tickers);
      var last := data[|data| - 1];
      assert data == data[..|data| - 1] + [last];
      if last.symbol in tickers then init + [last] else init
  }

  /** The filter keeps each requested row where it was, once per occurrence. */
  lemma {:induction false} FilteredAppend(a: seq<PricePoint>, b: seq<PricePoint>, tickers: seq<string>)
    ensures Filtered(a + b, tickers) == Filtered(a, tickers) + Filtered(b, tickers)
  {
    if b == [] {
      assert a + b == a;
    } else {
      var init := b[..|b| - 1];
      assert (a + b)[..|a + b| - 1] == a + init;
      assert (a + b)[|a + b| - 1] == b[|b| - 1];
      FilteredAppend(a, init, tickers);
    }
  }

  lemma FilteredSingle(p: PricePoint, tickers: seq<string>)
    ensures Filtered([p], tickers) == if p.symbol in tickers then [p] else []
  {
  }

  /** Two rows with the same (datetime, symbol) make `pivot` raise. */
  predicate HasDuplicatePair(rows: seq<PricePoint>) {
    exists i, j :: 0 <= i < j < |rows| && rows[i].datetime == rows[j].datetime && rows[i].symbol == rows[j].symbol
  }

  /** The pivot has a column for `t` only when some row carries `t`;
      otherwise `pivot_df[t]` raises. */
  predicate Present(rows: seq<PricePoint>, t: string) {
    exists k :: 0 <= k < |rows| && rows[k].symbol == t
  }

  /** One cell of a pivot column. */
  datatype Obs = Obs(time: int, price: Option<real>)

  function ObsOf(rows: seq<PricePoint>, t: string): (r: seq<Obs>)
    ensures |r| <= |rows|
  {
    if rows == [] then []
    else
      var init := ObsOf(rows[..|rows| - 1], t);
      var last := rows[|rows| - 1];
      if last.symbol == t then init + [Obs(last.datetime, last.price)] else init
  }

  /** A column takes the rows of its ticker in table order, once each. */
  lemma {:induction false} ObsOfAppend(a: seq<PricePoint>, b: seq<PricePoint>, t: string)
    ensures ObsOf(a + b, t) == ObsOf(a, t) + ObsOf(b, t)
  {
    if b == [] {
      assert a + b == a;
    } else {
      var init := b[..|b| - 1];
      assert (a + b)[..|a + b| - 1] == a + init;
      assert (a + b)[|a + b| - 1] == b[|b| - 1];
      ObsOfAppend(a, init, t);
    }
  }

  lemma ObsOfSingle(p: PricePoint, t: string)
    ensures ObsOf([p], t) == if p.symbol == t then [Obs(p.datetime, p.price)] else []
  {
  }

  predicate SortedByTime(s: seq<Obs>) {
    forall i, j :: 0 <= i < j < |s| ==> s[i].time <= s[j].time
  }

  function Insert(o: Obs, s: seq<Obs>): (r: seq<Obs>)
    ensures multiset(r) == multiset(s) + multiset{o}
  {
    if s == [] || o.time <= s[0].time then
      [o] + s
    else
      assert s == [s[0]] + s[1..];
      [s[0]] + Insert(o, s[1..])
  }

  /** No observation before `lo`. */
  predicate AllFrom(s: seq<Obs>, lo: int) {
    forall k :: 0 <= k < |s| ==> lo <= s[k].time
  }

  lemma {:induction false} InsertFrom(o: Obs, s: seq<Obs>, lo: int)
    requires lo <= o.time && AllFrom(s, lo)
    ensures AllFrom(Insert(o, s), lo)
  {
    if s != [] && o.time > s[0].time {
      var tail := s[1..];
      assert AllFrom(tail, lo) by {
        assert forall k :: 0 <= k < |tail| ==> tail[k] == s[k + 1];
      }
      InsertFrom(o, tail, lo);
      var r := Insert(o, s);
      assert forall k :: 1 <= k < |r| ==> r[k] == Insert(o, tail)[k - 1];
    }
  }

  lemma {:induction false} InsertSorted(o: Obs, s: seq<Obs>)
    requires SortedByTime(s)
    ensures SortedByTime(Insert(o, s))
  {
    if s != [] && o.time > s[0].time {
      var tail := s[1..];
      assert forall k :: 0 <= k < |tail| ==> tail[k] == s[k + 1];
      assert SortedByTime(tail);
      assert AllFrom(tail, s[0].time);
      InsertSorted(o, tail);
      InsertFrom(o, tail, s[0].time);
      var rest := Insert(o, tail);
      var r := [s[0]] + rest;
      assert r == Insert(o, s);
      forall a, b | 0 <= a < b < |r| ensures r[a].time <= r[b].time {
        if a > 0 {
          assert r[a] == rest[a - 1] && r[b] == rest[b - 1];
        } else {
          assert r[b] == rest[b - 1];
        }
      }
    }
  }

  /** `sort_index` of the pivot, restricted to one column. */
  function SortByTime(s: seq<Obs>): (r: seq<Obs>)
    ensures SortedByTime(r)
    ensures multiset(r) == multiset(s)
  {
    if s == [] then []
    else
      assert s == [s[0]] + s[1..];
      var rest := SortByTime(s[1..]);
      InsertSorted(s[0], rest);
      Insert(s[0], rest)
  }

  /** `dropna`: the prices that are present, in order. */
  function Prices(s: seq<Obs>): (r: seq<real>)
    ensures |r| <= |s|
  {
    if s == [] then []
    else
      var init := Prices(s[..|s| - 1]);
      var last := s[|s| - 1];
      if last.price.Some? then init + [last.price.value] else init
  }

  /** `dropna` keeps the present prices in order, once each. */
  lemma {:induction false} PricesAppend(a: seq<Obs>, b: seq<Obs>)
    ensures Prices(a + b) == Prices(a) + Prices(b)
  {
    if b == [] {
      assert a + b == a;
    } else {
      var init := b[..|b| - 1];
      assert (a + b)[..|a + b| - 1] == a + init;
      assert (a + b)[|a + b| - 1] == b[|b| - 1];
      PricesAppend(a, init);
    }
  }

  lemma PricesSingle(o: Obs)
    ensures Prices([o]) == if o.price.Some? then [o.price.value] else []
  {
  }

  /** Inserting an observation adds its price, if any, to the prices. */
  lemma {:induction false} PricesInsert(o: Obs, s: seq<Obs>)
    ensures multiset(Prices(Insert(o, s))) == multiset(Prices([o])) + multiset(Prices(s))
  {
    if s == [] || o.time <= s[0].time {
      PricesAppend([o], s);
    } else {
      var tail := s[1..];
      assert s == [s[0]] + tail;
      PricesInsert(o, tail);
      PricesAppend([s[0]], Insert(o, tail));
      PricesAppend([s[0]], tail);
    }
  }

  /** Sorting a column by datetime neither adds nor loses a price. */
  lemma {:induction false} PricesSortByTime(s: seq<Obs>)
    ensures multiset(Prices(SortByTime(s))) == multiset(Prices(s))
  {
    if s != [] {
      assert s == [s[0]] + s[1..];
      PricesSortByTime(s[1..]);
      PricesInsert(s[0], SortByTime(s[1..]));
      PricesAppend([s[0]], s[1..]);
    }
  }

  /** A column already in datetime order is left as it is. */
  lemma {:induction false} SortByTimeOfSorted(s: seq<Obs>)
    requires SortedByTime(s)
    ensures SortByTime(s) == s
  {
    if s != [] {
      var tail := s[1..];
      assert forall k :: 0 <= k < |tail| ==> tail[k] == s[k + 1];
      SortByTimeOfSorted(tail);
      assert tail == [] || s[0].time <= tail[0].time;
      assert s == [s[0]] + tail;
    }
  }

  /** `pivot_df[t].dropna()`: the present prices of `t`'s rows, once each,
      ordered by datetime. */
  function Series(rows: seq<PricePoint>, t: string): (r: seq<real>)
    ensures multiset(r) == multiset(Prices(ObsOf(rows, t)))
  {
    PricesSortByTime(ObsOf(rows, t));
    Prices(SortByTime(ObsOf(rows, t)))
  }

  /** When `t`'s rows already come in datetime order, the series is their
      present prices in table order. */
  lemma SeriesInTableOrder(rows: seq<PricePoint>, t: string)
    requires SortedByTime(ObsOf(rows, t))
    ensures Series(rows, t) == Prices(ObsOf(rows, t))
  {
    SortByTimeOfSorted(ObsOf(rows, t));
  }

  /** `a / b - 1` on floats. */
  function Ratio(a: real, b: real): (r: Float)
    ensures r.Num? <==> b != 0.0
  {
    Minus1(Div(a, b))
  }

  /** `pct_change()` after its leading NaN: the step ratios s[i] / s[i-1] - 1. */
  function StepReturns(s: seq<real>): (r: seq<Float>)
    ensures |r| == if s == [] then 0 else |s| - 1
    ensures forall i :: 0 <= i < |r| ==> r[i] == ReturnAt(s, i)
  {
    if |s| <= 1 then [] else seq(|s| - 1, i requires 0 <= i < |s| - 1 => ReturnAt(s, i))
  }

  /** The return from price i to price i + 1. */
  function ReturnAt(s: seq<real>, i: int): (r: Float)
    requires 0 <= i < |s| - 1
    ensures r.Num? <==> s[i] != 0.0
  {
    Ratio(s[i + 1], s[i])
  }

  /** `dropna` on floats: NaN entries (steps of 0 / 0) are dropped. */
  function DropNaN(s: seq<Float>): (r: seq<Float>)
    ensures |r| <= |s|
  {
    if s == [] then []
    else
      var init := DropNaN(s[..|s| - 1]);
      var last := s[|s| - 1];
      if last != NaN then init + [last] else init
  }

  /** `dropna` keeps the non-NaN returns in order, once each. */
  lemma {:induction false} DropNaNAppend(a: seq<Float>, b: seq<Float>)
    ensures DropNaN(a + b) == DropNaN(a) + DropNaN(b)
  {
    if b == [] {
      assert a + b == a;
    } else {
      var init := b[..|b| - 1];
      assert (a + b)[..|a + b| - 1] == a + init;
      assert (a + b)[|a + b| - 1] == b[|b| - 1];
      DropNaNAppend(a, init);
    }
  }

  lemma DropNaNSingle(x: Float)
    ensures DropNaN([x]) == if x != NaN then [x] else []
  {
  }

  /** `dropna` keeps exactly the entries that are not NaN. */
  lemma {:induction false} DropNaNMembers(s: seq<Float>, x: Float)
    ensures x in DropNaN(s) <==> x in s && x != NaN
  {
    if s != [] {
      var init := s[..|s| - 1];
      assert s == init + [s[|s| - 1]];
      DropNaNMembers(init, x);
    }
  }

  /** The volatility column: 0 when at most one return is left; otherwise
      the standard deviation of these returns, annualised by sqrt(252). */
  datatype Volatility = NoVolatility | AnnualisedStd(sample: seq<Float>)

  datatype PerformanceRecord = PerformanceRecord(
    ticker: string, latestPrice: real,
    dailyChange: Float, weeklyChange: Float, monthlyChange: Float, overallChange: Float,
    volatility: Volatility)

  function Max0(x: int): int { if x > 0 then x else 0 }

  /** The summary row of one ticker's price series. The "else 0" branches
      of the source are kept; for two or more prices they are never taken. */
  function RecordOf(t: string, s: seq<real>): (rec: PerformanceRecord)
    requires |s| >= 2
    ensures rec.ticker == t && rec.latestPrice == s[|s| - 1]
    ensures rec.dailyChange == Ratio(s[|s| - 1], s[|s| - 2])
    ensures rec.weeklyChange == Ratio(s[|s| - 1], s[Max0(|s| - 6)])
    ensures rec.monthlyChange == Ratio(s[|s| - 1], s[Max0(|s| - 22)])
    ensures rec.overallChange == Ratio(s[|s| - 1], s[0])
    ensures rec.volatility.NoVolatility? <==> |DropNaN(StepReturns(s))| <= 1
    ensures rec.volatility.AnnualisedStd? ==> rec.volatility.sample == DropNaN(StepReturns(s))
  {
    var n := |s|;
    var latest := s[n - 1];
    var daily := if n > 1 then StepReturns(s)[n - 2] else Num(0.0);
    var weekAgo := Max0(n - 6);
    var weekly := if weekAgo < n - 1 then Ratio(latest, s[weekAgo]) else Num(0.0);
    var monthAgo := Max0(n - 22);
    var monthly := if monthAgo < n - 1 then Ratio(latest, s[monthAgo]) else Num(0.0);
    var rs := DropNaN(StepReturns(s));
    PerformanceRecord(t, latest, daily, weekly, monthly, Ratio(latest, s[0]),
                      if |rs| > 1 then AnnualisedStd(rs) else NoVolatility)
  }

  /** With at most six prices the week reference is the first price. */
  lemma ShortWeekIsOverall(t: string, s: seq<real>)
    requires 2 <= |s| <= 6
    ensures RecordOf(t, s).weeklyChange == RecordOf(t, s).overallChange
  {
  }

  /** With at most 22 prices the month reference is the first price. */
  lemma ShortMonthIsOverall(t: string, s: seq<real>)
    requires 2 <= |s| <= 22
    ensures RecordOf(t, s).monthlyChange == RecordOf(t, s).overallChange
  {
  }

  /** Two prices give a single return, so no volatility, and every change
      is the overall change. */
  lemma TwoPrices(t: string, a: real, b: real)
    ensures RecordOf(t, [a, b]).volatility == NoVolatility
    ensures RecordOf(t, [a, b]).dailyChange == RecordOf(t, [a, b]).overallChange
  {
    assert |StepReturns([a, b])| == 1;
  }

  /** Prices 100, 110, 121: 21% overall, 10% on the last day. */
  lemma ThreePriceExample()
    ensures RecordOf("X", [100.0, 110.0, 121.0]).overallChange == Num(0.21)
    ensures RecordOf("X", [100.0, 110.0, 121.0]).dailyChange == Num(0.1)
    ensures RecordOf("X", [100.0, 110.0, 121.0]).volatility.AnnualisedStd?
  {
    var s := [100.0, 110.0, 121.0];
    assert StepReturns(s) == [Ratio(110.0, 100.0), Ratio(121.0, 110.0)];
    assert Ratio(110.0, 100.0) == Num(0.1);
    assert Ratio(121.0, 110.0) == Num(0.1);
    assert DropNaN(StepReturns(s)) == [Num(0.1), Num(0.1)] by {
      assert StepReturns(s)[..1] == [Num(0.1)];
      assert DropNaN([Num(0.1)]) == [Num(0.1)];
    }
  }

  /** The pivot, column by column: one series per symbol that has rows. */
  function Pivot(rows: seq<PricePoint>): (p: map<string, seq<real>>)
    ensures forall t :: t in p <==> Present(rows, t)
    ensures forall t {:trigger p[t]} :: t in p ==> p[t] == Series(rows, t)
  {
    map t | t in (set k | 0 <= k < |rows| :: rows[k].symbol) :: Series(rows, t)
  }

  /** The summary row of one pivot column, if it holds two or more prices. */
  function RowFor(pivot: map<string, seq<real>>, t: string): (r: Option<PerformanceRecord>)
    requires t in pivot
    ensures r.Some? <==> |pivot[t]| >= 2
    ensures r.Some? ==> r.value.ticker == t && r.value == RecordOf(t, pivot[t])
  {
    if |pivot[t]| >= 2 then Some(RecordOf(t, pivot[t])) else None
  }

  /** The candidate row of every pivot column. */
  function Candidates(pivot: map<string, seq<real>>): (c: map<string, Option<PerformanceRecord>>)
    ensures c.Keys == pivot.Keys
    ensures forall t {:trigger c[t]} :: t in c ==> c[t] == RowFor(pivot, t)
    ensures Keyed(c)
  {
    map t | t in pivot :: RowFor(pivot, t)
  }

  /** Each candidate row carries its own ticker. */
  predicate Keyed(c: map<string, Option<PerformanceRecord>>) {
    forall t :: t in c && c[t].Some? ==> c[t].value.ticker == t
  }

  predicate AllIn(ts: seq<string>, c: map<string, Option<PerformanceRecord>>) {
    forall k :: 0 <= k < |ts| ==> ts[k] in c
  }

  /** The rows the loop appends for `ts`, in the order of `ts`; built from the back. */
  function Records(c: map<string, Option<PerformanceRecord>>, ts: seq<string>): (r: seq<PerformanceRecord>)
    requires Keyed(c) && AllIn(ts, c)
    ensures |r| <= |ts|
    ensures forall k :: 0 <= k < |r| ==> r[k].ticker in c && c[r[k].ticker] == Some(r[k])
  {
    if ts == [] then []
    else
      var t := ts[|ts| - 1];
      var init := Records(c, ts[..|ts| - 1]);
      if c[t].Some? then init + [c[t].value] else init
  }

  /** Every listed ticker with a candidate row is in the output. */
  lemma {:induction false} RecordsComplete(c: map<string, Option<PerformanceRecord>>, ts: seq<string>, t: string)
    requires Keyed(c) && AllIn(ts, c)
    requires t in ts && c[t].Some?
    ensures exists k :: 0 <= k < |Records(c, ts)| && Records(c, ts)[k].ticker == t
  {
    var init := ts[..|ts| - 1];
    var last := ts[|ts| - 1];
    assert ts == init + [last];
    var r := Records(c, ts);
    if last == t {
      assert r[|r| - 1] == c[t].value;
    } else {
      assert t in init;
      RecordsComplete(c, init, t);
      var k :| 0 <= k < |Records(c, init)| && Records(c, init)[k].ticker == t;
      assert r[k] == Records(c, init)[k];
    }
  }

  /** Every output row belongs to a listed ticker. */
  lemma {:induction false} RecordsListed(c: map<string, Option<PerformanceRecord>>, ts: seq<string>, k: int)
    requires Keyed(c) && AllIn(ts, c)
    requires 0 <= k < |Records(c, ts)|
    ensures Records(c, ts)[k].ticker in ts
  {
    var init := ts[..|ts| - 1];
    var r := Records(c, ts);
    if k < |Records(c, init)| {
      RecordsListed(c, init, k);
      assert r[k] == Records(c, init)[k];
    } else {
      assert r[k] == c[ts[|ts| - 1]].value;
    }
  }

  /** The rows follow the order of the ticker list. */
  lemma {:induction false} RecordsAppend(c: map<string, Option<PerformanceRecord>>, a: seq<string>, b: seq<string>)
    requires Keyed(c) && AllIn(a, c) && AllIn(b, c)
    ensures AllIn(a + b, c)
    ensures Records(c, a + b) == Records(c, a) + Records(c, b)
    decreases |b|
  {
    if b == [] {
      assert a + b == a;
    } else {
      var b' := b[..|b| - 1];
      assert (a + b)[..|a + b| - 1] == a + b';
      assert (a + b)[|a + b| - 1] == b[|b| - 1];
      RecordsAppend(c, a, b');
    }
  }

  /** Whether the source raises before returning: a duplicate pair breaks
      the pivot, a requested ticker without rows breaks the column lookup. */
  predicate Fails(filtered: seq<PricePoint>, tickers: seq<string>) {
    HasDuplicatePair(filtered) || exists k :: 0 <= k < |tickers| && !Present(filtered, tickers[k])
  }

  /** What `get_performance_summary` returns; an empty list is the empty table. */
  function PerformanceSummary(data: seq<PricePoint>, tickers: seq<string>): (r: seq<PerformanceRecord>)
    ensures Fails(Filtered(data, tickers), tickers) ==> r == []
  {
    var filtered := Filtered(data, tickers);
    if Fails(filtered, tickers) then [] else Records(Candidates(Pivot(filtered)), tickers)
  }

  /** A listed ticker appears in the summary exactly when nothing fails and
      its series has two or more prices; then its row is the record of
      that series. */
  lemma SummaryMembership(data: seq<PricePoint>, tickers: seq<string>, t: string)
    requires t in tickers
    ensures (exists k :: 0 <= k < |PerformanceSummary(data, tickers)| && PerformanceSummary(data, tickers)[k].ticker == t)
      <==> !Fails(Filtered(data, tickers), tickers) && |Series(Filtered(data, tickers), t)| >= 2
  {
    var f := Filtered(data, tickers);
    var r := PerformanceSummary(data, tickers);
    if !Fails(f, tickers) {
      var p := Pivot(f);
      var c := Candidates(p);
      assert r == Records(c, tickers);
      var i :| 0 <= i < |tickers| && tickers[i] == t;
      assert Present(f, tickers[i]);
      assert t in p;
      assert c[t] == RowFor(p, t);
      if |Series(f, t)| >= 2 {
        RecordsComplete(c, tickers, t);
      } else {
        forall k | 0 <= k < |r| ensures r[k].ticker != t {
          assert c[r[k].ticker] == Some(r[k]);
        }
      }
    }
  }

  /** A summary row is the record of its ticker's series. */
  lemma SummaryRowValue(data: seq<PricePoint>, tickers: seq<string>, k: int)
    requires 0 <= k < |PerformanceSummary(data, tickers)|
    ensures |Series(Filtered(data, tickers), PerformanceSummary(data, tickers)[k].ticker)| >= 2
    ensures PerformanceSummary(data, tickers)[k]
      == RecordOf(PerformanceSummary(data, tickers)[k].ticker, Series(Filtered(data, tickers), PerformanceSummary(data, tickers)[k].ticker))
  {
  }

  /** Every summary row belongs to a requested ticker. */
  lemma SummaryListed(data: seq<PricePoint>, tickers: seq<string>, k: int)
    requires 0 <= k < |PerformanceSummary(data, tickers)|
    ensures PerformanceSummary(data, tickers)[k].ticker in tickers
  {
    RecordsListed(Candidates(Pivot(Filtered(data, tickers))), tickers, k);
  }

  /** Every ticker of `ts` has a pivot column. */
  predicate Columns(ts: seq<string>, pivot: map<string, seq<real>>) {
    forall k :: 0 <= k < |ts| ==> ts[k] in pivot
  }

  /** The rows the loop has appended once it has passed the tickers `ts`:
      the record of each column with two or more prices, in order. */
  function Kept(pivot: map<string, seq<real>>, ts: seq<string>): (r: seq<PerformanceRecord>)
    requires Columns(ts, pivot)
    ensures |r| <= |ts|
  {
    if ts == [] then []
    else
      var t := ts[|ts| - 1];
      assert Columns(ts[..|ts| - 1], pivot) by {
        assert forall k :: 0 <= k < |ts| - 1 ==> ts[..|ts| - 1][k] == ts[k];
      }
      Kept(pivot, ts[..|ts| - 1]) + (if |pivot[t]| >= 2 then [RecordOf(t, pivot[t])] else [])
  }

  /** One turn of the loop: the ticker's record is appended when its
      column holds two or more prices. */
  lemma LoopStep(pivot: map<string, seq<real>>, ts: seq<string>, i: int)
    requires 0 <= i < |ts| && Columns(ts[..i], pivot) && ts[i] in pivot
    ensures Columns(ts[..i + 1], pivot)
    ensures Kept(pivot, ts[..i + 1])
      == Kept(pivot, ts[..i]) + (if |pivot[ts[i]]| >= 2 then [RecordOf(ts[i], pivot[ts[i]])] else [])
  {
    assert forall k :: 0 <= k < i ==> ts[..i + 1][k] == ts[..i][k];
    assert ts[..i + 1][..i] == ts[..i];
  }

  /** What the loop keeps is the candidate rows of the listed tickers. */
  lemma {:induction false} KeptIsRecords(pivot: map<string, seq<real>>, ts: seq<string>)
    requires Columns(ts, pivot)
    ensures AllIn(ts, Candidates(pivot))
    ensures Kept(pivot, ts) == Records(Candidates(pivot), ts)
  {
    var c := Candidates(pivot);
    if ts != [] {
      var init, t := ts[..|ts| - 1], ts[|ts| - 1];
      assert forall k :: 0 <= k < |init| ==> init[k] == ts[k];
      KeptIsRecords(pivot, init);
      assert c[t] == RowFor(pivot, t);
    }
  }

  /** The loop over the tickers: a ticker without a pivot column raises,
      which empties the whole result; a column with fewer than two prices
      is skipped. */
  method SummaryLoop(pivotDf: map<string, seq<real>>, tickers: seq<string>) returns (performance: seq<PerformanceRecord>)
    ensures Columns(tickers, pivotDf) ==> performance == Kept(pivotDf, tickers)
    ensures !Columns(tickers, pivotDf) ==> performance == []
  {
    performance := [];
    for i := 0 to |tickers|
      invariant Columns(tickers[..i], pivotDf)
      invariant performance == Kept(pivotDf, tickers[..i])
    {
      var ticker := tickers[i];
      if ticker !in pivotDf {
        return [];
      }
      LoopStep(pivotDf, tickers, i);
      var tickerData := pivotDf[ticker];
      if |tickerData| < 2 {
        continue;
      }
      performance := performance + [RecordOf(ticker, tickerData)];
    }
    assert tickers[..|tickers|] == tickers;
  }

  /** `get_performance_summary`: filter, pivot, then the loop over the tickers. */
  method GetPerformanceSummary(priceData: seq<PricePoint>, tickers: seq<string>) returns (performance: seq<PerformanceRecord>)
    ensures performance == PerformanceSummary(priceData, tickers)
  {
    var filteredData := Filtered(priceData, tickers);
    if HasDuplicatePair(filteredData) {
      return [];
    }
    var pivotDf := Pivot(filteredData);
    performance := SummaryLoop(pivotDf, tickers);
    PivotCovers(filteredData, tickers);
    if Columns(tickers, pivotDf) {
      KeptIsRecords(pivotDf, tickers);
    }
  }

  /** When no requested ticker has two prices, the summary is the empty table. */
  lemma NoQualifyingTicker(data: seq<PricePoint>, tickers: seq<string>)
    requires forall k :: 0 <= k < |tickers| ==> |Series(Filtered(data, tickers), tickers[k])| < 2
    ensures PerformanceSummary(data, tickers) == []
  {
    var r := PerformanceSummary(data, tickers);
    if r != [] {
      SummaryListed(data, tickers, 0);
      SummaryMembership(data, tickers, r[0].ticker);
    }
  }

  /** Every ticker has a pivot column exactly when no ticker lookup fails. */
  lemma PivotCovers(rows: seq<PricePoint>, tickers: seq<string>)
    ensures Columns(tickers, Pivot(rows))
      <==> !(exists k :: 0 <= k < |tickers| && !Present(rows, tickers[k]))
  {
  }
}
