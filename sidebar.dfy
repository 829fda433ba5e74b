/**
 * The sidebar's period table of page one: every label of the period picker
 * stands for a provider period code and a bar interval.
 */
module PageOneSidebar {
  import opened Wrappers
  import opened PageOneFetch

  datatype PeriodChoice = PeriodChoice(period: string, interval: string)

  /** The `time_period` mapping. */
  const TimePeriod: map<string, PeriodChoice> := map[
    "1 dia" := PeriodChoice("1d", "5m"),
    "5 dias" := PeriodChoice("5d", "30m"),
    "1 mês" := PeriodChoice("1mo", "1h"),
    "6 meses" := PeriodChoice("6mo", "1d"),
    "1 ano" := PeriodChoice("1y", "1wk"),
    "5 anos" := PeriodChoice("5y", "1mo"),
    "máximo" := PeriodChoice("max", "3mo")
  ]

  /** The options of the period picker, in display order. */
  const PeriodLabels: seq<string> := ["1 dia", "5 dias", "1 mês", "6 meses", "1 ano", "5 anos", "máximo"]

  /** The choice behind a picker label; None for a label the table does not know. */
  function ChoiceFor(key: string): (r: Option<PeriodChoice>)
    ensures r.Some? <==> key in PeriodLabels
    ensures r.Some? ==> r.value == TimePeriod[key]
  {
    if key in TimePeriod then Some(TimePeriod[key]) else None
  }

  /** Labels of at least six months are fetched in monthly chunks, the three
      shorter ones in a single download. */
  lemma ChunkedLabels(key: string)
    requires key in PeriodLabels
    ensures IsChunked(ChoiceFor(key).value.period) <==> key in {"6 meses", "1 ano", "5 anos", "máximo"}
  {
  }

  /** The chunked labels ask for bars of a day or longer, so a 30-day window
      holds at most 30 of them. */
  lemma ChunkedIntervals(key: string)
    requires key in PeriodLabels && IsChunked(ChoiceFor(key).value.period)
    ensures ChoiceFor(key).value.interval in {"1d", "1wk", "1mo", "3mo"}
  {
  }

  /** The lookback of each chunked label. */
  lemma LabelLookbacks()
    ensures LookbackDays(TimePeriod["6 meses"].period) == 180
    ensures LookbackDays(TimePeriod["1 ano"].period) == 365
    ensures LookbackDays(TimePeriod["5 anos"].period) == 1825
    ensures LookbackDays(TimePeriod["máximo"].period) == 7300
  {
  }
}
