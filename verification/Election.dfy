/** Choosing a tier's order from measured latency and price. Scores are exact. */
module Election {
  import opened TextOrder
  import opened Wrappers

  datatype Cost = Cost(currency: string, amount: real)

  datatype Measurement = Measurement(
    modelId: string,
    latency: Option<nat>,
    error: Option<string>,
    price: Option<Cost>,
    priority: int)

  datatype Scoring = Scoring(priceWeight: real, latencyWeight: real)

  /** Why a model is where it is. */
  datatype Remark = Placed(place: nat, priceScored: bool) | DidNotAnswer(error: Option<string>)

  datatype Ranked = Ranked(modelId: string, score: Option<real>, latency: Option<nat>, price: Option<Cost>, remark: Remark)

  datatype TierNote = NothingAnswered | NotAllPriced | Currencies(count: nat)

  datatype TierElection = TierElection(ranked: seq<Ranked>, priced: bool, note: Option<TierNote>)

  // ---- the axes -------------------------------------------------------------------------------------------

  const WORST_RATIO := 100.0

  /** How many times worse than the best, between 1 and the ceiling. */
  function Ratio(value: real, best: real): real {
    if value <= best then 1.0
    else if best <= 0.0 then WORST_RATIO
    else if value / best < WORST_RATIO then value / best
    else WORST_RATIO
  }

  function Max(a: real, b: real): real {
    if a < b then b else a
  }

  function Min(a: real, b: real): real {
    if a < b then a else b
  }

  datatype Weighting = Weighting(price: real, latency: real)

  function Proportions(price: real, latency: real): Weighting {
    var total := price + latency;
    if total <= 0.0 then Weighting(0.5, 0.5) else Weighting(price / total, latency / total)
  }

  function Weights(s: Scoring): Weighting {
    Proportions(Max(s.priceWeight, 0.0), Max(s.latencyWeight, 0.0))
  }

  function Latency(m: Measurement): real {
    m.latency.GetOr(0) as real
  }

  function Price(m: Measurement): real {
    if m.price.Some? then m.price.value.amount else 0.0
  }

  function MinOf(values: seq<real>): real
    requires values != []
  {
    if |values| == 1 then values[0] else Min(values[0], MinOf(values[1..]))
  }

  function Latencies(ms: seq<Measurement>): seq<real> {
    seq(|ms|, i requires 0 <= i < |ms| => Latency(ms[i]))
  }

  function Prices(ms: seq<Measurement>): seq<real> {
    seq(|ms|, i requires 0 <= i < |ms| => Price(ms[i]))
  }

  function CurrenciesOf(ms: seq<Measurement>): seq<string> {
    if ms == [] then []
    else (if ms[0].price.Some? then [ms[0].price.value.currency] else []) + CurrenciesOf(ms[1..])
  }

  predicate NeighboursAgree(currencies: seq<string>) {
    |currencies| < 2 || (currencies[0] == currencies[1] && NeighboursAgree(currencies[1..]))
  }

  /** What every model of the tier is scored against. */
  datatype Axes = Axes(priced: bool, bestLatency: real, bestPrice: real, weights: Weighting)

  predicate PriceCounts(answered: seq<Measurement>) {
    |CurrenciesOf(answered)| == |answered| && NeighboursAgree(CurrenciesOf(answered))
  }

  function AxesOf(answered: seq<Measurement>, s: Scoring): Axes
    requires answered != []
  {
    var priced := PriceCounts(answered);
    Axes(priced, MinOf(Latencies(answered)), if priced then MinOf(Prices(answered)) else 0.0, Weights(s))
  }

  function NoteOf(answered: seq<Measurement>): Option<TierNote> {
    if PriceCounts(answered) then None
    else if |CurrenciesOf(answered)| != |answered| then Some(NotAllPriced)
    else Some(Currencies(|set c | c in CurrenciesOf(answered)|))
  }

  function Blend(weights: Weighting, price: real, latency: real): real {
    weights.price * price + weights.latency * latency
  }

  function Score(m: Measurement, axes: Axes): real {
    var latencyRatio := Ratio(Latency(m), axes.bestLatency);
    if !axes.priced then latencyRatio else Blend(axes.weights, Ratio(Price(m), axes.bestPrice), latencyRatio)
  }

  // ---- the order ------------------------------------------------------------------------------------------

  /** Score, then manual priority, then id. */
  predicate Precedes(a: Measurement, b: Measurement, axes: Axes) {
    || Score(a, axes) < Score(b, axes)
    || (Score(a, axes) == Score(b, axes) &&
        (a.priority < b.priority || (a.priority == b.priority && TextLe(a.modelId, b.modelId))))
  }

  function Insert(m: Measurement, sorted: seq<Measurement>, axes: Axes): seq<Measurement> {
    if sorted == [] || Precedes(m, sorted[0], axes) then [m] + sorted
    else [sorted[0]] + Insert(m, sorted[1..], axes)
  }

  /** A stable sort. */
  function Sort(ms: seq<Measurement>, axes: Axes): seq<Measurement> {
    if ms == [] then [] else Insert(ms[0], Sort(ms[1..], axes), axes)
  }

  function Answered(ms: seq<Measurement>): seq<Measurement> {
    if ms == [] then [] else (if ms[0].latency.Some? then [ms[0]] else []) + Answered(ms[1..])
  }

  function Unanswered(ms: seq<Measurement>): seq<Measurement> {
    if ms == [] then [] else (if ms[0].latency.None? then [ms[0]] else []) + Unanswered(ms[1..])
  }

  function AnsweredEntry(m: Measurement, place: nat, axes: Axes): Ranked {
    Ranked(m.modelId, Some(Score(m, axes)), m.latency, m.price, Placed(place, axes.priced))
  }

  function UnansweredEntry(m: Measurement): Ranked {
    Ranked(m.modelId, None, None, m.price, DidNotAnswer(m.error))
  }

  function Places(order: seq<Measurement>, axes: Axes): seq<Ranked> {
    seq(|order|, i requires 0 <= i < |order| => AnsweredEntry(order[i], i, axes))
  }

  function Rest(unanswered: seq<Measurement>): seq<Ranked> {
    seq(|unanswered|, i requires 0 <= i < |unanswered| => UnansweredEntry(unanswered[i]))
  }

  function Rank(ms: seq<Measurement>, s: Scoring): TierElection {
    var answered := Answered(ms);
    if answered == [] then
      TierElection(Rest(Unanswered(ms)), false, Some(NothingAnswered))
    else
      var axes := AxesOf(answered, s);
      TierElection(Places(Sort(answered, axes), axes) + Rest(Unanswered(ms)), axes.priced, NoteOf(answered))
  }
}
