/** How price is weighed against speed: what the two configured weights decide. */
module ElectionTrade {
  import opened Election
  import opened ElectionLaws
  import opened Wrappers

  function PriceRatio(m: Measurement, axes: Axes): real {
    Ratio(Price(m), axes.bestPrice)
  }

  function LatencyRatio(m: Measurement, axes: Axes): real {
    Ratio(Latency(m), axes.bestLatency)
  }

  // ---- one weight alone -----------------------------------------------------------------------------------

  lemma OneWeightAlone(s: Scoring)
    ensures s.priceWeight > 0.0 && s.latencyWeight <= 0.0 ==> Weights(s) == Weighting(1.0, 0.0)
    ensures s.latencyWeight > 0.0 && s.priceWeight <= 0.0 ==> Weights(s) == Weighting(0.0, 1.0)
    ensures s.priceWeight <= 0.0 && s.latencyWeight <= 0.0 ==> Weights(s) == Weighting(0.5, 0.5)
  {
    if s.priceWeight > 0.0 {
      WholeShare(s.priceWeight);
    }
    if s.latencyWeight > 0.0 {
      WholeShare(s.latencyWeight);
    }
  }

  lemma WholeShare(w: real)
    requires w > 0.0
    ensures w / w == 1.0 && 0.0 / w == 0.0
  {
  }

  /** Without weight on latency the price ratio is the score; without weight on price, or without comparable prices, the
      latency ratio is; without any weight both count half. */
  lemma ScoreOfOneWeight(m: Measurement, answered: seq<Measurement>, s: Scoring)
    requires answered != []
    ensures var axes := AxesOf(answered, s);
            && (axes.priced && s.priceWeight > 0.0 && s.latencyWeight <= 0.0 ==> Score(m, axes) == PriceRatio(m, axes))
            && (!axes.priced || (s.latencyWeight > 0.0 && s.priceWeight <= 0.0) ==> Score(m, axes) == LatencyRatio(m, axes))
            && (axes.priced && s.priceWeight <= 0.0 && s.latencyWeight <= 0.0 ==>
                  Score(m, axes) == (PriceRatio(m, axes) + LatencyRatio(m, axes)) / 2.0)
  {
    OneWeightAlone(s);
  }

  /** With weight on price only, the models that answered are ordered by price ratio, whatever their latency; with
      weight on latency only, and whenever prices cannot be compared, by latency ratio, whatever their price. */
  lemma OneWeightOrders(ms: seq<Measurement>, s: Scoring, i: nat, j: nat)
    requires i < j < |Answered(ms)|
    ensures j < |Order(ms, s)|
    ensures var a, b, axes := Order(ms, s)[i], Order(ms, s)[j], AxesOf(Answered(ms), s);
            && (axes.priced && s.priceWeight > 0.0 && s.latencyWeight <= 0.0 ==> PriceRatio(a, axes) <= PriceRatio(b, axes))
            && (!axes.priced || (s.latencyWeight > 0.0 && s.priceWeight <= 0.0) ==> LatencyRatio(a, axes) <= LatencyRatio(b, axes))
  {
    var answered := Answered(ms);
    var axes := AxesOf(answered, s);
    EveryModelRankedOnce(ms, s);
    SizeOfSort(answered, axes);
    SortSorts(answered, axes);
    var a, b := Sort(answered, axes)[i], Sort(answered, axes)[j];
    assert Precedes(a, b, axes);
    ScoreOfOneWeight(a, answered, s);
    ScoreOfOneWeight(b, answered, s);
  }

  // ---- both weights ---------------------------------------------------------------------------------------

  /** The configured weights, as far as they count. */
  function Heed(weight: real): real {
    Max(weight, 0.0)
  }

  lemma BlendIsConfigured(s: Scoring, price: real, latency: real)
    requires Heed(s.priceWeight) + Heed(s.latencyWeight) > 0.0
    ensures (Heed(s.priceWeight) + Heed(s.latencyWeight)) * Blend(Weights(s), price, latency) ==
            Heed(s.priceWeight) * price + Heed(s.latencyWeight) * latency
  {
    var p, l := Heed(s.priceWeight), Heed(s.latencyWeight);
    var total, w := p + l, Weights(s);
    assert total * w.price == p && total * w.latency == l;
    Distribute(total, w.price, price, w.latency, latency);
  }

  lemma Distribute(t: real, a: real, x: real, b: real, y: real)
    ensures t * (a * x + b * y) == (t * a) * x + (t * b) * y
  {
    assert t * (a * x) == (t * a) * x && t * (b * y) == (t * b) * y;
  }

  /** What is lost in speed weighs no more than what is saved in price. */
  predicate SavesEnough(s: Scoring, lost: real, saved: real) {
    Heed(s.latencyWeight) * lost <= Heed(s.priceWeight) * saved
  }

  lemma BlendsCompare(s: Scoring, p: real, l: real, q: real, m: real)
    requires Heed(s.priceWeight) + Heed(s.latencyWeight) > 0.0
    ensures Blend(Weights(s), p, l) <= Blend(Weights(s), q, m) <==>
            SavesEnough(s, l - m, q - p)
  {
    var x, y := Blend(Weights(s), p, l), Blend(Weights(s), q, m);
    BlendIsConfigured(s, p, l);
    BlendIsConfigured(s, q, m);
    OrderScales(Heed(s.priceWeight) + Heed(s.latencyWeight), x, y);
    Spread(Heed(s.latencyWeight), l, m);
    Spread(Heed(s.priceWeight), q, p);
  }

  lemma ScoreIsBlend(m: Measurement, answered: seq<Measurement>, s: Scoring)
    requires answered != [] && PriceCounts(answered)
    ensures var axes := AxesOf(answered, s); Score(m, axes) == Blend(Weights(s), PriceRatio(m, axes), LatencyRatio(m, axes))
  {
  }

  /** Of two models, the cheaper and slower one scores no worse if and only if what it costs in speed is no more than
      what it saves, each counted with its configured weight. */
  lemma CheaperWinsExactly(cheap: Measurement, fast: Measurement, answered: seq<Measurement>, s: Scoring)
    requires answered != [] && PriceCounts(answered) && Heed(s.priceWeight) + Heed(s.latencyWeight) > 0.0
    ensures var axes := AxesOf(answered, s);
            Score(cheap, axes) <= Score(fast, axes) <==>
            SavesEnough(s, LatencyRatio(cheap, axes) - LatencyRatio(fast, axes), PriceRatio(fast, axes) - PriceRatio(cheap, axes))
  {
    var axes := AxesOf(answered, s);
    ScoreIsBlend(cheap, answered, s);
    ScoreIsBlend(fast, answered, s);
    BlendsCompare(s, PriceRatio(cheap, axes), LatencyRatio(cheap, axes), PriceRatio(fast, axes), LatencyRatio(fast, axes));
  }

  lemma OrderScales(c: real, x: real, y: real)
    requires c > 0.0
    ensures c * x <= c * y <==> x <= y
  {
    if x <= y {
      ProductSign(c, y - x);
      assert c * (y - x) == c * y - c * x;
    } else {
      assert c * (x - y) > 0.0;
      assert c * (x - y) == c * x - c * y;
    }
  }

  lemma Spread(w: real, x: real, y: real)
    ensures w * (x - y) == w * x - w * y
  {
  }

  lemma TradeIsKept(s: Scoring, priceWeight: real, p: real, l: real, q: real, m: real)
    requires s.priceWeight <= priceWeight && p <= q && Blend(Weights(s), p, l) <= Blend(Weights(s), q, m)
    ensures var more := Weights(s.(priceWeight := priceWeight)); Blend(more, p, l) <= Blend(more, q, m)
  {
    var more := s.(priceWeight := priceWeight);
    if Heed(priceWeight) + Heed(s.latencyWeight) > 0.0 {
      BlendsCompare(more, p, l, q, m);
      if Heed(s.priceWeight) + Heed(s.latencyWeight) > 0.0 {
        BlendsCompare(s, p, l, q, m);
        MoreWeight(Heed(s.latencyWeight), l - m, Heed(s.priceWeight), Heed(priceWeight), q - p);
      } else {
        NoWeight(Heed(s.latencyWeight), l - m, Heed(priceWeight), q - p);
      }
    }
  }

  /** Raising the weight of price never makes the cheaper of two models score worse against the other. */
  lemma PriceWeightFavoursCheaper(cheap: Measurement, other: Measurement, answered: seq<Measurement>, s: Scoring, priceWeight: real)
    requires answered != [] && PriceCounts(answered) && Price(cheap) <= Price(other)
    requires s.priceWeight <= priceWeight && Score(cheap, AxesOf(answered, s)) <= Score(other, AxesOf(answered, s))
    ensures var axes := AxesOf(answered, s.(priceWeight := priceWeight)); Score(cheap, axes) <= Score(other, axes)
  {
    var axes := AxesOf(answered, s);
    RatioMonotone(Price(cheap), Price(other), axes.bestPrice);
    TradeIsKept(s, priceWeight, PriceRatio(cheap, axes), LatencyRatio(cheap, axes), PriceRatio(other, axes), LatencyRatio(other, axes));
  }

  lemma MoreWeight(l: real, lost: real, a: real, b: real, saved: real)
    requires a <= b && saved >= 0.0 && l * lost <= a * saved
    ensures l * lost <= b * saved
  {
    ProductSign(b - a, saved);
    Spread(saved, b, a);
  }

  lemma NoWeight(l: real, lost: real, b: real, saved: real)
    requires l == 0.0 && b >= 0.0 && saved >= 0.0
    ensures l * lost <= b * saved
  {
    ProductSign(b, saved);
  }

  // ---- what the axes measure, and what is shown -----------------------------------------------------------

  /** A ratio says how many times the best a value is, from once to a hundred times. */
  lemma RatioMeasures(value: real, best: real)
    ensures value <= best ==> Ratio(value, best) == 1.0
    ensures 0.0 < best <= value <= 100.0 * best ==> Ratio(value, best) * best == value
    ensures best < value && (best <= 0.0 || value >= 100.0 * best) ==> Ratio(value, best) == 100.0
  {
    if 0.0 < best < value {
      Quotient(value, best);
    }
  }

  lemma Quotient(value: real, best: real)
    requires 0.0 < best
    ensures (value / best) * best == value && (value / best < 100.0 <==> value < 100.0 * best)
  {
    var q := value / best;
    assert q * best == value;
    OrderScales(best, q, 100.0);
  }

  /** Every model that answered is shown with its place and with whether prices were scored. */
  lemma PlaceIsShown(ms: seq<Measurement>, s: Scoring, i: nat)
    requires i < |Answered(ms)|
    ensures i < |Rank(ms, s).ranked| && Rank(ms, s).ranked[i].remark == Placed(i, PriceCounts(Answered(ms)))
  {
    SizeOfSort(Answered(ms), AxesOf(Answered(ms), s));
  }

  /** The note says why prices were not scored: nothing answered, somebody has no price, or how many currencies there are. */
  lemma NoteSaysWhy(ms: seq<Measurement>, s: Scoring)
    ensures var answered, note := Answered(ms), Rank(ms, s).note;
            && (note == Some(NothingAnswered) <==> answered == [])
            && (note == Some(NotAllPriced) <==> exists m :: m in answered && m.price.None?)
            && (note.None? <==> answered != [] && PriceCounts(answered))
            && forall n :: note == Some(Currencies(n)) ==>
                 n == |set m | m in answered && m.price.Some? :: m.price.value.currency|
  {
    var answered := Answered(ms);
    CurrencyFacts(answered);
    assert (set c | c in CurrenciesOf(answered)) == set m | m in answered && m.price.Some? :: m.price.value.currency;
  }
}
