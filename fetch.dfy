/**
 * Range planning, chunked fetching and chunk merging of `fetch_data_interval`
 * (src/components/page_one.py). Time is counted in seconds on the naive local
 * clock that `datetime.now()` reads; a request carries calendar dates, the
 * day numbers that `strftime('%Y-%m-%d')` keeps of its bounds.
 */
module PageOneFetch {
  import opened Frames

  const Day: int := 86400
  /** The "approximation of one month" every chunk spans. */
  const MonthSpan: int := 30 * Day

  /** The calendar day of an instant (floor division by a day). */
  function DayOf(t: int): int { t / Day }

  /** The periods fetched in monthly chunks; every other code is one download. */
  predicate IsChunked(period: string) {
    period == "6mo" || period == "1y" || period == "5y" || period == "max"
  }

  /** How far back a chunked period reaches. */
  function LookbackDays(period: string): (d: int)
    requires IsChunked(period)
    ensures d > 0
  {
    if period == "6mo" then 180
    else if period == "1y" then 365
    else if period == "5y" then 365 * 5
    else 365 * 20
  }

  /** The first instant fetched: the lookback before `now`, on the same clock time. */
  function StartDate(period: string, now: int): (r: int)
    requires IsChunked(period)
    ensures r < now
    ensures DayOf(r) == DayOf(now) - LookbackDays(period)
  {
    now - LookbackDays(period) * Day
  }

  /** A download request, as handed to the market-data provider. */
  datatype Request =
    | ByPeriod(period: string, interval: string)
    | ByRange(startDay: int, endDay: int, interval: string)

  datatype Window = Window(start: int, end: int)

  /** The windows the loop walks through from `lo` up to `hi`: 30 days each,
      the last one clipped to `hi`. */
  function Windows(lo: int, hi: int): (r: seq<Window>)
    ensures r == [] <==> lo >= hi
    decreases hi - lo
  {
    if lo >= hi then []
    else
      var next := if lo + MonthSpan > hi then hi else lo + MonthSpan;
      [Window(lo, next)] + Windows(next, hi)
  }

  /** `ws` covers `[lo, hi)` without gaps or overlaps, in chunks of at most
      30 days, all of exactly 30 days but the last. */
  ghost predicate Tiles(ws: seq<Window>, lo: int, hi: int) {
    && ws != []
    && ws[0].start == lo
    && ws[|ws| - 1].end == hi
    && (forall k :: 0 <= k < |ws| - 1 ==> ws[k].end == ws[k + 1].start)
    && (forall k :: 0 <= k < |ws| ==> ws[k].start < ws[k].end <= ws[k].start + MonthSpan)
    && (forall k :: 0 <= k < |ws| - 1 ==> ws[k].end == ws[k].start + MonthSpan)
  }

  lemma {:induction false} WindowsTile(lo: int, hi: int)
    requires lo < hi
    ensures Tiles(Windows(lo, hi), lo, hi)
    decreases hi - lo
  {
    var next := if lo + MonthSpan > hi then hi else lo + MonthSpan;
    var ws := Windows(lo, hi);
    assert ws == [Window(lo, next)] + Windows(next, hi);
    if next < hi {
      WindowsTile(next, hi);
      var rest := Windows(next, hi);
      assert ws[|ws| - 1] == rest[|rest| - 1];
      forall k | 0 <= k < |ws|
        ensures ws[k].start < ws[k].end <= ws[k].start + MonthSpan
        ensures k < |ws| - 1 ==> ws[k].end == ws[k + 1].start && ws[k].end == ws[k].start + MonthSpan
      {
        if k > 0 {
          assert ws[k] == rest[k - 1];
        }
        if k < |ws| - 1 {
          assert ws[k + 1] == rest[k];
        }
      }
    }
  }

  /** The number of windows is the lookback divided by 30 days, rounded up. */
  lemma {:induction false} WindowCount(lo: int, hi: int)
    requires lo <= hi
    ensures |Windows(lo, hi)| == (hi - lo + MonthSpan - 1) / MonthSpan
    decreases hi - lo
  {
    if lo < hi {
      if lo + MonthSpan >= hi {
        assert Windows(lo, hi) == [Window(lo, hi)] + Windows(hi, hi);
      } else {
        WindowCount(lo + MonthSpan, hi);
        assert (hi - lo + MonthSpan - 1) / MonthSpan
            == (hi - (lo + MonthSpan) + MonthSpan - 1) / MonthSpan + 1;
      }
    }
  }

  /** 6 chunks for 6mo, 13 for 1y, 61 for 5y, 244 for max. */
  lemma ChunkCounts(period: string, now: int)
    requires IsChunked(period)
    ensures |Windows(StartDate(period, now), now)| == (LookbackDays(period) + 29) / 30
  {
    var d := LookbackDays(period);
    WindowCount(StartDate(period, now), now);
    assert now - StartDate(period, now) + MonthSpan - 1 == (d + 29) * Day + (Day - 1);
  }

  /** The request of one window: its bounds cut down to calendar dates. */
  function RequestFor(w: Window, interval: string): (r: Request)
    ensures r.ByRange? && r.interval == interval
    ensures w.start <= w.end ==> r.startDay <= r.endDay
  {
    ByRange(DayOf(w.start), DayOf(w.end), interval)
  }

  function RequestsFor(ws: seq<Window>, interval: string): (rs: seq<Request>)
    ensures |rs| == |ws|
    ensures forall k :: 0 <= k < |ws| ==> rs[k] == RequestFor(ws[k], interval)
  {
    if ws == [] then [] else RequestsFor(ws[..|ws| - 1], interval) + [RequestFor(ws[|ws| - 1], interval)]
  }

  /** The tables returned for the requests, in request order. */
  function Downloads(rs: seq<Request>, download: Request -> seq<WideRow>): (cs: seq<seq<WideRow>>)
    ensures |cs| == |rs|
    ensures forall k :: 0 <= k < |rs| ==> cs[k] == download(rs[k])
  {
    if rs == [] then [] else Downloads(rs[..|rs| - 1], download) + [download(rs[|rs| - 1])]
  }

  /** The chunks kept by `if not monthly_chunk.empty`. */
  function NonEmpty(cs: seq<seq<WideRow>>): (r: seq<seq<WideRow>>)
    ensures forall k :: 0 <= k < |r| ==> r[k] != []
  {
    if cs == [] then []
    else NonEmpty(cs[..|cs| - 1]) + (if cs[|cs| - 1] == [] then [] else [cs[|cs| - 1]])
  }

  /** `pd.concat` of a list of tables. */
  function Concat(cs: seq<seq<WideRow>>): seq<WideRow> {
    if cs == [] then [] else Concat(cs[..|cs| - 1]) + cs[|cs| - 1]
  }

  /** Skipping empty chunks does not change what is concatenated. */
  lemma {:induction false} ConcatNonEmpty(cs: seq<seq<WideRow>>)
    ensures Concat(NonEmpty(cs)) == Concat(cs)
  {
    if cs != [] {
      var init, last := cs[..|cs| - 1], cs[|cs| - 1];
      ConcatNonEmpty(init);
      if last == [] {
        assert NonEmpty(cs) == NonEmpty(init) + [];
        assert Concat(cs) == Concat(init) + [];
        assert NonEmpty(init) + [] == NonEmpty(init) && Concat(init) + [] == Concat(init);
      } else {
        var ne := NonEmpty(init) + [last];
        assert ne[..|ne| - 1] == NonEmpty(init);
      }
    }
  }

  /** The timestamps that occur in a table. */
  function TimesOf(s: seq<WideRow>): set<int> {
    set k | 0 <= k < |s| :: s[k].time
  }

  /** No two rows share a timestamp. */
  predicate DistinctTimes(s: seq<WideRow>) {
    forall i, j :: 0 <= i < j < |s| ==> s[i].time != s[j].time
  }

  /** The position of the first row with timestamp `t`. */
  function FirstIndex(s: seq<WideRow>, t: int): (i: nat)
    requires t in TimesOf(s)
    ensures i < |s| && s[i].time == t
    ensures forall j :: 0 <= j < i ==> s[j].time != t
  {
    if s[0].time == t then 0
    else
      assert t in TimesOf(s[1..]) by {
        var k :| 0 <= k < |s| && s[k].time == t;
        assert s[1..][k - 1] == s[k];
      }
      1 + FirstIndex(s[1..], t)
  }

  /** `df[~df.index.duplicated(keep='first')]`: a row is dropped when an
      earlier row has the same timestamp. */
  function DropDuplicated(s: seq<WideRow>): (r: seq<WideRow>)
    ensures |r| <= |s|
  {
    if s == [] then []
    else
      var init := s[..|s| - 1];
      DropDuplicated(init) + (if s[|s| - 1].time in TimesOf(init) then [] else [s[|s| - 1]])
  }

  lemma TimesOfSnoc(init: seq<WideRow>, x: WideRow)
    ensures TimesOf(init + [x]) == TimesOf(init) + {x.time}
  {
    var s := init + [x];
    forall t | t in TimesOf(s) ensures t in TimesOf(init) + {x.time} {
      var k :| 0 <= k < |s| && s[k].time == t;
      if k < |init| { assert s[k] == init[k]; }
    }
    forall t | t in TimesOf(init) ensures t in TimesOf(s) {
      var k :| 0 <= k < |init| && init[k].time == t;
      assert s[k] == init[k];
    }
    assert s[|init|] == x;
  }

  /** Deduplication keeps every timestamp of the input and no other. */
  lemma {:induction false} DropDuplicatedTimes(s: seq<WideRow>)
    ensures TimesOf(DropDuplicated(s)) == TimesOf(s)
  {
    if s != [] {
      var init, last := s[..|s| - 1], s[|s| - 1];
      assert s == init + [last];
      DropDuplicatedTimes(init);
      TimesOfSnoc(init, last);
      if last.time !in TimesOf(init) {
        assert DropDuplicated(s) == DropDuplicated(init) + [last];
        TimesOfSnoc(DropDuplicated(init), last);
      } else {
        assert DropDuplicated(s) == DropDuplicated(init) + [];
        assert DropDuplicated(s) == DropDuplicated(init);
      }
      assert TimesOf(s) == TimesOf(init) + {last.time};
    }
  }

  /** After deduplication no timestamp repeats. */
  lemma {:induction false} DropDuplicatedDistinct(s: seq<WideRow>)
    ensures DistinctTimes(DropDuplicated(s))
  {
    if s != [] {
      var init, last := s[..|s| - 1], s[|s| - 1];
      DropDuplicatedDistinct(init);
      DropDuplicatedTimes(init);
      var d := DropDuplicated(init);
      if last.time !in TimesOf(init) {
        var r := d + [last];
        assert DropDuplicated(s) == r;
        forall i | 0 <= i < |d| ensures r[i].time != last.time {
          assert r[i] == d[i];
          assert d[i].time in TimesOf(d);
        }
      } else {
        assert DropDuplicated(s) == d + [];
      }
    }
  }

  /** Every kept row is the first row of the input with its timestamp. */
  lemma {:induction false} DropDuplicatedKeepsFirst(s: seq<WideRow>)
    ensures forall k :: 0 <= k < |DropDuplicated(s)| ==>
      && DropDuplicated(s)[k].time in TimesOf(s)
      && DropDuplicated(s)[k] == s[FirstIndex(s, DropDuplicated(s)[k].time)]
  {
    if s != [] {
      var init, last := s[..|s| - 1], s[|s| - 1];
      assert s == init + [last];
      DropDuplicatedKeepsFirst(init);
      TimesOfSnoc(init, last);
      var d := DropDuplicated(init);
      var r := DropDuplicated(s);
      forall k | 0 <= k < |r| ensures r[k].time in TimesOf(s) && r[k] == s[FirstIndex(s, r[k].time)] {
        if k < |d| {
          assert r[k] == d[k];
          var i := FirstIndex(init, d[k].time);
          assert s[i] == init[i];
          FirstIndexUnique(s, d[k].time, i);
        } else {
          assert r[k] == last && last.time !in TimesOf(init);
          forall j | 0 <= j < |init| ensures s[j].time != last.time {
            assert s[j] == init[j];
          }
          FirstIndexUnique(s, last.time, |init|);
        }
      }
    }
  }

  /** Kept rows stay in the order of their first occurrence. */
  lemma {:induction false} DropDuplicatedKeepsOrder(s: seq<WideRow>)
    ensures TimesOf(DropDuplicated(s)) == TimesOf(s)
    ensures forall a, b :: 0 <= a < b < |DropDuplicated(s)| ==>
      FirstIndex(s, DropDuplicated(s)[a].time) < FirstIndex(s, DropDuplicated(s)[b].time)
  {
    DropDuplicatedTimes(s);
    if s != [] {
      var init, last := s[..|s| - 1], s[|s| - 1];
      assert s == init + [last];
      DropDuplicatedKeepsOrder(init);
      var d := DropDuplicated(init);
      var r := DropDuplicated(s);
      if last.time in TimesOf(init) {
        assert r == d;
        forall a, b | 0 <= a < b < |r| ensures FirstIndex(s, r[a].time) < FirstIndex(s, r[b].time) {
          InTimes(d, a);
          InTimes(d, b);
          FirstIndexSnoc(init, last, r[a].time);
          FirstIndexSnoc(init, last, r[b].time);
        }
      } else {
        assert r == d + [last];
        forall a, b | 0 <= a < b < |r| ensures FirstIndex(s, r[a].time) < FirstIndex(s, r[b].time) {
          assert r[a] == d[a];
          InTimes(d, a);
          FirstIndexSnoc(init, last, r[a].time);
          if b < |d| {
            assert r[b] == d[b];
            InTimes(d, b);
            FirstIndexSnoc(init, last, r[b].time);
          } else {
            FirstIndexLast(init, last);
          }
        }
      }
    }
  }

  lemma InTimes(s: seq<WideRow>, k: int)
    requires 0 <= k < |s|
    ensures s[k].time in TimesOf(s)
  {
  }

  /** Appending a row does not move the first occurrence of a timestamp already present. */
  lemma FirstIndexSnoc(init: seq<WideRow>, x: WideRow, t: int)
    requires t in TimesOf(init)
    ensures t in TimesOf(init + [x]) && FirstIndex(init + [x], t) == FirstIndex(init, t)
  {
    var s := init + [x];
    var i := FirstIndex(init, t);
    assert s[i] == init[i];
    forall j | 0 <= j < i ensures s[j].time != t {
      assert s[j] == init[j];
    }
    FirstIndexUnique(s, t, i);
  }

  /** An appended row with a new timestamp is that timestamp's first occurrence. */
  lemma FirstIndexLast(init: seq<WideRow>, x: WideRow)
    requires x.time !in TimesOf(init)
    ensures x.time in TimesOf(init + [x]) && FirstIndex(init + [x], x.time) == |init|
  {
    var s := init + [x];
    forall j | 0 <= j < |init| ensures s[j].time != x.time {
      assert s[j] == init[j];
      InTimes(init, j);
    }
    FirstIndexUnique(s, x.time, |init|);
  }

  lemma FirstIndexUnique(s: seq<WideRow>, t: int, i: nat)
    requires i < |s| && s[i].time == t
    requires forall j :: 0 <= j < i ==> s[j].time != t
    ensures t in TimesOf(s) && FirstIndex(s, t) == i
  {
  }

  /** A table whose timestamps are already distinct is left unchanged, so
      deduplicating twice is the same as deduplicating once. */
  lemma {:induction false} DropDuplicatedOfDistinct(s: seq<WideRow>)
    requires DistinctTimes(s)
    ensures DropDuplicated(s) == s
  {
    if s != [] {
      var init, last := s[..|s| - 1], s[|s| - 1];
      assert s == init + [last];
      DropDuplicatedOfDistinct(init);
      assert last.time !in TimesOf(init);
    }
  }

  lemma DropDuplicatedIdempotent(s: seq<WideRow>)
    ensures DropDuplicated(DropDuplicated(s)) == DropDuplicated(s)
  {
    DropDuplicatedDistinct(s);
    DropDuplicatedOfDistinct(DropDuplicated(s));
  }

  /** The merged table: the non-empty chunks concatenated in window order,
      then the first row per timestamp. */
  function Merge(cs: seq<seq<WideRow>>): (r: seq<WideRow>)
    ensures TimesOf(r) == TimesOf(Concat(cs))
    ensures DistinctTimes(r)
  {
    ConcatNonEmpty(cs);
    DropDuplicatedTimes(Concat(NonEmpty(cs)));
    DropDuplicatedDistinct(Concat(NonEmpty(cs)));
    DropDuplicated(Concat(NonEmpty(cs)))
  }

  /** When two chunks share a boundary timestamp, the merged table holds that
      timestamp once, with the row of the earlier chunk; with no rows at all,
      it is empty. */
  lemma MergeBoundary(a: seq<WideRow>, b: seq<WideRow>, t: int)
    requires t in TimesOf(a)
    ensures var m := Merge([a, b]);
      t in TimesOf(m) &&
      exists k :: 0 <= k < |m| && m[k].time == t && m[k] == a[FirstIndex(a, t)]
  {
    var cs := [a, b];
    ConcatNonEmpty(cs);
    assert cs[..1] == [a];
    assert [a][..0] == [];
    assert Concat([a]) == a;
    var s := a + b;
    assert Concat(cs) == s;
    DropDuplicatedTimes(s);
    DropDuplicatedKeepsFirst(s);
    var i := FirstIndex(a, t);
    assert s[i] == a[i];
    FirstIndexUnique(s, t, i);
    var m := Merge(cs);
    assert t in TimesOf(m);
    var k :| 0 <= k < |m| && m[k].time == t;
    assert m[k] == s[i];
  }

  lemma MergeNothing(cs: seq<seq<WideRow>>)
    requires forall k :: 0 <= k < |cs| ==> cs[k] == []
    ensures Merge(cs) == []
  {
    ConcatNonEmpty(cs);
    ConcatEmpty(cs);
  }

  lemma {:induction false} ConcatEmpty(cs: seq<seq<WideRow>>)
    requires forall k :: 0 <= k < |cs| ==> cs[k] == []
    ensures Concat(cs) == []
  {
    if cs != [] { ConcatEmpty(cs[..|cs| - 1]); }
  }

  lemma RequestsForSnoc(ws: seq<Window>, w: Window, interval: string)
    ensures RequestsFor(ws + [w], interval) == RequestsFor(ws, interval) + [RequestFor(w, interval)]
  {
    assert (ws + [w])[..|ws|] == ws;
  }

  lemma DownloadsSnoc(rs: seq<Request>, r: Request, download: Request -> seq<WideRow>)
    ensures Downloads(rs + [r], download) == Downloads(rs, download) + [download(r)]
  {
    assert (rs + [r])[..|rs|] == rs;
  }

  lemma NonEmptySnoc(cs: seq<seq<WideRow>>, c: seq<WideRow>)
    ensures NonEmpty(cs + [c]) == NonEmpty(cs) + (if c == [] then [] else [c])
  {
    assert (cs + [c])[..|cs|] == cs;
  }

  /**
   * `fetch_data_interval`: a period outside 6mo, 1y, 5y and max is one
   * download of the whole period; the others are downloaded window by window
   * and merged. `requests` lists the downloads issued, in order.
   */
  method FetchDataInterval(period: string, interval: string, now: int, download: Request -> seq<WideRow>)
    returns (data: seq<WideRow>, requests: seq<Request>)
    ensures !IsChunked(period) ==> requests == [ByPeriod(period, interval)] && data == download(requests[0])
    ensures IsChunked(period) ==>
      && requests == RequestsFor(Windows(StartDate(period, now), now), interval)
      && data == Merge(Downloads(requests, download))
  {
    if !IsChunked(period) {
      requests := [ByPeriod(period, interval)];
      data := download(requests[0]);
      return;
    }
    data, requests := FetchMonthly(StartDate(period, now), now, interval, download);
  }

  /** What the month-by-month loop has done once it reaches `current`:
      the windows before it are `done`, their requests are issued and their
      non-empty tables are kept. */
  ghost predicate Progress(startDate: int, endDate: int, current: int, done: seq<Window>,
                           requests: seq<Request>, monthlyData: seq<seq<WideRow>>,
                           interval: string, download: Request -> seq<WideRow>)
  {
    && Windows(startDate, endDate) == done + Windows(current, endDate)
    && requests == RequestsFor(done, interval)
    && monthlyData == NonEmpty(Downloads(requests, download))
  }

  lemma ProgressStep(startDate: int, endDate: int, current: int, next: int, done: seq<Window>,
                     requests: seq<Request>, monthlyData: seq<seq<WideRow>>,
                     interval: string, download: Request -> seq<WideRow>)
    requires current < endDate
    requires next == if current + MonthSpan > endDate then endDate else current + MonthSpan
    requires Progress(startDate, endDate, current, done, requests, monthlyData, interval, download)
    ensures var request := ByRange(DayOf(current), DayOf(next), interval);
      var chunk := download(request);
      Progress(startDate, endDate, next, done + [Window(current, next)], requests + [request],
               if chunk == [] then monthlyData else monthlyData + [chunk], interval, download)
  {
    var request := ByRange(DayOf(current), DayOf(next), interval);
    var w := Window(current, next);
    WindowsStep(startDate, endDate, current, next, done);
    RequestsForSnoc(done, w, interval);
    KeptStep(requests, request, download);
  }

  /** The window from `current` to `next` moves from the remaining windows to the done ones. */
  lemma WindowsStep(startDate: int, endDate: int, current: int, next: int, done: seq<Window>)
    requires current < endDate
    requires next == if current + MonthSpan > endDate then endDate else current + MonthSpan
    requires Windows(startDate, endDate) == done + Windows(current, endDate)
    ensures Windows(startDate, endDate) == (done + [Window(current, next)]) + Windows(next, endDate)
  {
    assert Windows(current, endDate) == [Window(current, next)] + Windows(next, endDate);
  }

  /** One more request keeps its table when the table is not empty. */
  lemma KeptStep(requests: seq<Request>, request: Request, download: Request -> seq<WideRow>)
    ensures NonEmpty(Downloads(requests + [request], download))
      == NonEmpty(Downloads(requests, download)) + (if download(request) == [] then [] else [download(request)])
  {
    DownloadsSnoc(requests, request, download);
    NonEmptySnoc(Downloads(requests, download), download(request));
  }

  /** The month-by-month loop of `fetch_data_interval`, from `startDate` to `endDate`. */
  method FetchMonthly(startDate: int, endDate: int, interval: string, download: Request -> seq<WideRow>)
    returns (data: seq<WideRow>, requests: seq<Request>)
    ensures requests == RequestsFor(Windows(startDate, endDate), interval)
    ensures data == Merge(Downloads(requests, download))
  {
    var monthlyData: seq<seq<WideRow>> := [];
    var currentDate := startDate;
    ghost var done: seq<Window> := [];
    requests := [];
    while currentDate < endDate
      invariant Progress(startDate, endDate, currentDate, done, requests, monthlyData, interval, download)
      decreases endDate - currentDate
    {
      var nextMonth := currentDate + MonthSpan;
      if nextMonth > endDate {
        nextMonth := endDate;
      }
      ProgressStep(startDate, endDate, currentDate, nextMonth, done, requests, monthlyData, interval, download);
      var request := ByRange(DayOf(currentDate), DayOf(nextMonth), interval);
      var monthlyChunk := download(request);
      monthlyData := if monthlyChunk == [] then monthlyData else monthlyData + [monthlyChunk];
      done, requests, currentDate := done + [Window(currentDate, nextMonth)], requests + [request], nextMonth;
    }
    ProgressDone(startDate, endDate, currentDate, done, requests, monthlyData, interval, download);
    if monthlyData != [] {
      data := DropDuplicated(Concat(monthlyData));
    } else {
      data := [];
    }
  }

  /** Once the loop has reached `endDate`, every window is done and the
      kept tables, concatenated and deduplicated, are the merge. */
  lemma ProgressDone(startDate: int, endDate: int, current: int, done: seq<Window>,
                     requests: seq<Request>, monthlyData: seq<seq<WideRow>>,
                     interval: string, download: Request -> seq<WideRow>)
    requires current >= endDate
    requires Progress(startDate, endDate, current, done, requests, monthlyData, interval, download)
    ensures requests == RequestsFor(Windows(startDate, endDate), interval)
    ensures (if monthlyData != [] then DropDuplicated(Concat(monthlyData)) else []) == Merge(Downloads(requests, download))
  {
    assert Windows(current, endDate) == [];
    assert done + [] == done;
  }

  /** The requested dates are contiguous too: each chunk asks from the day the
      previous one asked up to, the first starts `LookbackDays` before today
      and the last ends today. */
  lemma RequestsContiguous(period: string, interval: string, now: int)
    requires IsChunked(period)
    ensures var rs := RequestsFor(Windows(StartDate(period, now), now), interval);
      && rs != []
      && rs[0].startDay == DayOf(now) - LookbackDays(period)
      && rs[|rs| - 1].endDay == DayOf(now)
      && forall k :: 0 <= k < |rs| - 1 ==> rs[k].endDay == rs[k + 1].startDay
  {
    var start := StartDate(period, now);
    WindowsTile(start, now);
    assert (now - LookbackDays(period) * Day) / Day == now / Day - LookbackDays(period);
  }
}
