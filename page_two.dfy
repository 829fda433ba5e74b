/**
 * The comparison page (src/components/page_two.py): the per-ticker download
 * that turns any provider error into an empty table, the normalised-price
 * series of the comparative chart, and the correlation option map.
 */
module PageTwo {
  import opened Wrappers
  import opened Numbers
  import opened Frames

  /** What the provider does for one ticker and date range. */
  datatype Download = Fetched(bars: seq<Bar>) | Raised(message: string)

  /** `fetch_data_timeframe`: the downloaded table, or an empty one when
      the download raises. */
  function FetchDataTimeframe(d: Download): (r: seq<Bar>)
    ensures d.Raised? ==> r == []
    ensures d.Fetched? ==> r == d.bars
  {
    match d
    case Fetched(bars) => bars
    case Raised(_) => []
  }

  function Closes(bars: seq<Bar>): (r: seq<real>)
    ensures |r| == |bars| && forall k :: 0 <= k < |bars| ==> r[k] == bars[k].quote.close
  {
    seq(|bars|, k requires 0 <= k < |bars| => bars[k].quote.close)
  }

  /** `Close.pct_change() * 100`: undefined at the first row, then the step
      ratio minus one, in percent. */
  function PctChange(c: seq<real>): (r: seq<Float>)
    ensures |r| == |c|
    ensures |c| > 0 ==> r[0] == NaN
    ensures forall i :: 1 <= i < |c| ==> r[i] == PctAt(c, i)
  {
    seq(|c|, i requires 0 <= i < |c| => if i == 0 then NaN else PctAt(c, i))
  }

  /** Row i's percentage change: c[i] / c[i - 1] - 1, times 100, on floats. */
  function PctAt(c: seq<real>, i: int): (p: Float)
    requires 1 <= i < |c|
    ensures p.Num? <==> c[i - 1] != 0.0
  {
    Scale(Minus1(Div(c[i], c[i - 1])), 100.0)
  }

  /** A missing value counts as zero in a running sum. */
  function Zeroed(x: Float): (r: Float)
    ensures r != NaN
    ensures x != NaN ==> r == x
  {
    if x == NaN then Num(0.0) else x
  }

  /** The running total that `cumsum` keeps: missing values are skipped. */
  function Total(xs: seq<Float>): Float {
    if xs == [] then Num(0.0) else Add(Total(xs[..|xs| - 1]), Zeroed(xs[|xs| - 1]))
  }

  /** `cumsum`: the running total at every row, and NaN where the row itself is NaN. */
  function CumSum(xs: seq<Float>): (r: seq<Float>)
    ensures |r| == |xs|
    ensures forall i :: 0 <= i < |xs| ==> r[i] == if xs[i] == NaN then NaN else Total(xs[..i + 1])
  {
    seq(|xs|, i requires 0 <= i < |xs| => if xs[i] == NaN then NaN else Total(xs[..i + 1]))
  }

  /** `100 + pct_change.cumsum()`. */
  function Normalized(c: seq<real>): (r: seq<Float>)
    ensures |r| == |c|
    ensures forall i :: 0 <= i < |c| ==> r[i] == Add(Num(100.0), CumSum(PctChange(c))[i])
  {
    var cs := CumSum(PctChange(c));
    seq(|c|, i requires 0 <= i < |c| => Add(Num(100.0), cs[i]))
  }

  /** The first normalised value is undefined. */
  lemma NormalizedFirstUndefined(c: seq<real>)
    requires |c| > 0
    ensures Normalized(c)[0] == NaN
  {
  }

  predicate NonZero(c: seq<real>) {
    forall i :: 0 <= i < |c| ==> c[i] != 0.0
  }

  /** The percentage step from row i - 1 to row i, on reals. */
  function Step(c: seq<real>, i: int): real
    requires 1 <= i < |c| && c[i - 1] != 0.0
  {
    (c[i] / c[i - 1] - 1.0) * 100.0
  }

  /** The sum of the steps 1..i. */
  function StepSum(c: seq<real>, i: int): real
    requires 0 <= i < |c| && NonZero(c)
  {
    if i == 0 then 0.0 else StepSum(c, i - 1) + Step(c, i)
  }

  lemma PctChangeIsStep(c: seq<real>, i: int)
    requires 1 <= i < |c| && NonZero(c)
    ensures PctChange(c)[i] == Num(Step(c, i))
  {
    var q := Div(c[i], c[i - 1]);
    assert q == Num(c[i] / c[i - 1]);
  }

  /** With no zero close, the running total after row i is the sum of the steps up to i. */
  lemma {:induction false} TotalIsStepSum(c: seq<real>, i: int)
    requires 0 <= i < |c| && NonZero(c)
    ensures Total(PctChange(c)[..i + 1]) == Num(StepSum(c, i))
  {
    var xs := PctChange(c);
    var pre := xs[..i + 1];
    assert pre[..|pre| - 1] == xs[..i];
    if i == 0 {
      assert xs[..0] == [];
      assert pre[0] == NaN;
    } else {
      assert xs[..i] == xs[..i - 1 + 1];
      TotalIsStepSum(c, i - 1);
      PctChangeIsStep(c, i);
      assert pre[|pre| - 1] == xs[i];
    }
  }

  /** normalised[i] = 100 + the sum of pct[1..i], for every row after the first. */
  lemma NormalizedIsRunningSum(c: seq<real>, i: int)
    requires 1 <= i < |c| && NonZero(c)
    ensures Normalized(c)[i] == Num(100.0 + StepSum(c, i))
  {
    PctChangeIsStep(c, i);
    TotalIsStepSum(c, i);
  }

  /** Consecutive normalised values differ by that row's percentage change:
      a running sum, not a compounded product. */
  lemma NormalizedSteps(c: seq<real>, i: int)
    requires 2 <= i < |c| && NonZero(c)
    ensures Normalized(c)[i].Num? && Normalized(c)[i - 1].Num?
    ensures Normalized(c)[i].v - Normalized(c)[i - 1].v == Step(c, i)
  {
    NormalizedIsRunningSum(c, i);
    NormalizedIsRunningSum(c, i - 1);
  }

  /** Closes 100, 110, 121 gain 10% twice: the chart reads 110 and 120;
      a compounded index would read 121. */
  lemma NormalizedDoesNotCompound()
    ensures Normalized([100.0, 110.0, 121.0])[1] == Num(110.0)
    ensures Normalized([100.0, 110.0, 121.0])[2] == Num(120.0)
  {
    var c := [100.0, 110.0, 121.0];
    NormalizedIsRunningSum(c, 1);
    NormalizedIsRunningSum(c, 2);
    assert Step(c, 1) == 10.0;
    assert Step(c, 2) == 10.0;
  }

  /** The tickers whose download is not empty. */
  function Loaded(selected: seq<Ticker>, fetch: Ticker -> Download): set<Ticker> {
    set t | t in selected && FetchDataTimeframe(fetch(t)) != []
  }

  /** `show_comparative_graph`: one normalised series per ticker whose
      download is not empty; the chart is built (Some) only when at least
      one such series exists. */
  method ShowComparativeGraph(selectedTickers: seq<Ticker>, fetch: Ticker -> Download)
    returns (chart: Option<map<Ticker, seq<Float>>>)
    ensures selectedTickers == [] ==> chart == None
    ensures chart.Some? <==> Loaded(selectedTickers, fetch) != {}
    ensures chart.Some? ==> chart.value.Keys == Loaded(selectedTickers, fetch)
    ensures chart.Some? ==> forall t :: t in chart.value ==>
      chart.value[t] == Normalized(Closes(FetchDataTimeframe(fetch(t))))
  {
    if selectedTickers == [] {
      return None;
    }
    var allData: map<Ticker, seq<Float>> := map[];
    for i := 0 to |selectedTickers|
      invariant allData.Keys == Loaded(selectedTickers[..i], fetch)
      invariant forall t :: t in allData ==> allData[t] == Normalized(Closes(FetchDataTimeframe(fetch(t))))
    {
      var ticker := selectedTickers[i];
      assert selectedTickers[..i + 1] == selectedTickers[..i] + [ticker];
      var data := FetchDataTimeframe(fetch(ticker));
      if data != [] {
        allData := allData[ticker := Normalized(Closes(data))];
      }
    }
    assert selectedTickers[..|selectedTickers|] == selectedTickers;
    if |allData| > 0 {
      chart := Some(allData);
    } else {
      chart := None;
    }
  }

  /** The correlation picker: display label to price column. */
  const OptionMap: map<string, string> := map[
    "Fechamento" := "Close",
    "Abertura" := "Open",
    "Máximo" := "High",
    "Mínimo" := "Low",
    "Volume" := "Volume"
  ]

  const DefaultOption: string := "Fechamento"

  /** `option_map[selection]`: a cleared picker (None) or an unknown label raises. */
  function CorrelationColumn(selection: Option<string>): (r: Result<string, string>)
    ensures r.Ok? <==> selection.Some? && selection.value in OptionMap
    ensures r.Ok? ==> r.value == OptionMap[selection.value]
  {
    if selection.Some? && selection.value in OptionMap then Ok(OptionMap[selection.value])
    else Err("KeyError")
  }

  /** The default label selects the closing price; the five labels select
      five different columns. */
  lemma OptionMapFacts()
    ensures CorrelationColumn(Some(DefaultOption)) == Ok("Close")
    ensures OptionMap.Values == {"Close", "Open", "High", "Low", "Volume"}
    ensures forall a, b :: a in OptionMap && b in OptionMap && a != b ==> OptionMap[a] != OptionMap[b]
  {
    assert OptionMap.Keys == {"Fechamento", "Abertura", "Máximo", "Mínimo", "Volume"};
    forall a, b | a in OptionMap && b in OptionMap && a != b ensures OptionMap[a] != OptionMap[b] {
      assert a in {"Fechamento", "Abertura", "Máximo", "Mínimo", "Volume"};
      assert b in {"Fechamento", "Abertura", "Máximo", "Mínimo", "Volume"};
    }
  }
}
