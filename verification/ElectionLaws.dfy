/** What an election promises: every model once, best first, and nothing depends on how its input was written. */
module ElectionLaws {
  import opened Election
  import opened TextOrder
  import opened Wrappers

  // ---- the order is total ---------------------------------------------------------------------------------

  lemma PrecedesTotal(a: Measurement, b: Measurement, axes: Axes)
    ensures Precedes(a, b, axes) || Precedes(b, a, axes)
    ensures Precedes(a, b, axes) && Precedes(b, a, axes) <==>
            Score(a, axes) == Score(b, axes) && a.priority == b.priority && a.modelId == b.modelId
  {
    TextLeTotal(a.modelId, b.modelId);
  }

  lemma PrecedesTransitive(a: Measurement, b: Measurement, c: Measurement, axes: Axes)
    requires Precedes(a, b, axes) && Precedes(b, c, axes)
    ensures Precedes(a, c, axes)
  {
    if TextLe(a.modelId, b.modelId) && TextLe(b.modelId, c.modelId) {
      TextLeTransitive(a.modelId, b.modelId, c.modelId);
    }
  }

  // ---- the sort -------------------------------------------------------------------------------------------

  ghost predicate Sorted(ms: seq<Measurement>, axes: Axes) {
    forall i, j :: 0 <= i < j < |ms| ==> Precedes(ms[i], ms[j], axes)
  }

  lemma {:induction false} InsertPermutes(m: Measurement, sorted: seq<Measurement>, axes: Axes)
    ensures multiset(Insert(m, sorted, axes)) == multiset(sorted) + multiset{m}
    decreases sorted
  {
    if sorted != [] {
      InsertPermutes(m, sorted[1..], axes);
      assert sorted == [sorted[0]] + sorted[1..];
    }
  }

  lemma {:induction false} InsertSorts(m: Measurement, sorted: seq<Measurement>, axes: Axes)
    requires Sorted(sorted, axes)
    ensures Sorted(Insert(m, sorted, axes), axes)
    decreases sorted
  {
    if sorted == [] {
    } else if Precedes(m, sorted[0], axes) {
      forall j | 0 <= j < |sorted|
        ensures Precedes(m, sorted[j], axes)
      {
        if j > 0 {
          PrecedesTransitive(m, sorted[0], sorted[j], axes);
        }
      }
    } else {
      var rest := Insert(m, sorted[1..], axes);
      InsertSorts(m, sorted[1..], axes);
      InsertPermutes(m, sorted[1..], axes);
      PrecedesTotal(m, sorted[0], axes);
      forall j | 0 <= j < |rest|
        ensures Precedes(sorted[0], rest[j], axes)
      {
        assert rest[j] in multiset(rest);
        assert rest[j] == m || rest[j] in sorted[1..];
      }
    }
  }

  lemma {:induction false} SortSorts(ms: seq<Measurement>, axes: Axes)
    ensures multiset(Sort(ms, axes)) == multiset(ms) && Sorted(Sort(ms, axes), axes)
    decreases ms
  {
    if ms != [] {
      SortSorts(ms[1..], axes);
      InsertPermutes(ms[0], Sort(ms[1..], axes), axes);
      InsertSorts(ms[0], Sort(ms[1..], axes), axes);
      assert ms == [ms[0]] + ms[1..];
    }
  }

  /** Only one measurement has this id. */
  ghost predicate IdsIdentify(ms: seq<Measurement>) {
    forall a, b :: a in ms && b in ms && a.modelId == b.modelId ==> a == b
  }

  lemma HeadPrecedes(sorted: seq<Measurement>, m: Measurement, axes: Axes)
    requires Sorted(sorted, axes) && m in multiset(sorted)
    ensures Precedes(sorted[0], m, axes)
  {
    assert m in sorted;
    PrecedesTotal(m, m, axes);
  }

  lemma TailOf(xs: seq<Measurement>)
    requires xs != []
    ensures multiset(xs[1..]) == multiset(xs) - multiset{xs[0]}
  {
    assert xs == [xs[0]] + xs[1..];
  }

  lemma {:induction false} SortedIsUnique(xs: seq<Measurement>, ys: seq<Measurement>, pool: seq<Measurement>, axes: Axes)
    requires Sorted(xs, axes) && Sorted(ys, axes) && multiset(xs) == multiset(ys) && IdsIdentify(pool)
    requires multiset(xs) <= multiset(pool)
    ensures xs == ys
    decreases xs
  {
    if xs == [] || ys == [] {
      assert |multiset(xs)| == |xs| && |multiset(ys)| == |ys|;
    } else {
      var x, y := xs[0], ys[0];
      assert x == y by {
        assert x in multiset(xs) && y in multiset(ys);
        assert x in pool && y in pool;
        HeadPrecedes(xs, y, axes);
        HeadPrecedes(ys, x, axes);
        PrecedesTotal(x, y, axes);
      }
      TailOf(xs);
      TailOf(ys);
      SortedIsUnique(xs[1..], ys[1..], pool, axes);
    }
  }

  // ---- a permutation with the answered first --------------------------------------------------------------

  /** The measurements in the order they are ranked. */
  function Order(ms: seq<Measurement>, s: Scoring): seq<Measurement> {
    var answered := Answered(ms);
    (if answered == [] then [] else Sort(answered, AxesOf(answered, s))) + Unanswered(ms)
  }

  lemma {:induction false} Partition(ms: seq<Measurement>)
    ensures multiset(Answered(ms)) + multiset(Unanswered(ms)) == multiset(ms)
    ensures forall m :: m in Answered(ms) ==> m.latency.Some?
    ensures forall m :: m in Unanswered(ms) ==> m.latency.None?
    decreases ms
  {
    if ms != [] {
      Partition(ms[1..]);
      assert ms == [ms[0]] + ms[1..];
    }
  }

  /** Every measurement is ranked exactly once. */
  lemma EveryModelRankedOnce(ms: seq<Measurement>, s: Scoring)
    ensures multiset(Order(ms, s)) == multiset(ms)
    ensures |Answered(ms)| <= |Order(ms, s)| == |Rank(ms, s).ranked| == |ms|
  {
    var answered := Answered(ms);
    Partition(ms);
    assert |multiset(ms)| == |ms| && |multiset(Order(ms, s))| == |Order(ms, s)|;
    if answered != [] {
      SortSorts(answered, AxesOf(answered, s));
      SizeOfSort(answered, AxesOf(answered, s));
    }
  }

  lemma SizeOfSort(ms: seq<Measurement>, axes: Axes)
    ensures |Sort(ms, axes)| == |ms|
  {
    SortSorts(ms, axes);
    assert |multiset(Sort(ms, axes))| == |Sort(ms, axes)| && |multiset(ms)| == |ms|;
  }

  /** Each place shows its own model, and exactly those that answered come first and have a score. */
  lemma AnsweredComeFirst(ms: seq<Measurement>, s: Scoring, i: nat)
    requires i < |ms|
    ensures i < |Order(ms, s)| == |Rank(ms, s).ranked|
    ensures var m, r := Order(ms, s)[i], Rank(ms, s).ranked[i];
            && r.modelId == m.modelId && r.price == m.price && r.latency == m.latency
            && (m.latency.Some? <==> i < |Answered(ms)|) && (r.score.Some? <==> m.latency.Some?)
            && (m.latency.None? ==> r.remark == DidNotAnswer(m.error))
  {
    var answered := Answered(ms);
    EveryModelRankedOnce(ms, s);
    Partition(ms);
    if answered != [] {
      var axes := AxesOf(answered, s);
      SizeOfSort(answered, axes);
      SortKeepsMembers(answered, axes);
      PlaceOrRest(Sort(answered, axes), Unanswered(ms), axes, i);
    }
  }

  lemma SortKeepsMembers(ms: seq<Measurement>, axes: Axes)
    ensures forall m :: m in Sort(ms, axes) ==> m in ms
  {
    SortSorts(ms, axes);
    forall m | m in Sort(ms, axes)
      ensures m in ms
    {
      assert m in multiset(Sort(ms, axes));
    }
  }

  lemma PlaceOrRest(order: seq<Measurement>, unanswered: seq<Measurement>, axes: Axes, i: nat)
    requires i < |order| + |unanswered|
    ensures (Places(order, axes) + Rest(unanswered))[i] ==
            if i < |order| then AnsweredEntry((order + unanswered)[i], i, axes) else UnansweredEntry((order + unanswered)[i])
    ensures (order + unanswered)[i] in if i < |order| then order else unanswered
  {
  }

  /** Of two models that answered, the earlier has the lower score, or the same and the lower priority, or the same
      of both and the lower id. */
  lemma BestFirst(ms: seq<Measurement>, s: Scoring, i: nat, j: nat)
    requires i < j < |Answered(ms)|
    ensures j < |Order(ms, s)| == |Rank(ms, s).ranked|
    ensures var a, b := Order(ms, s)[i], Order(ms, s)[j];
            var x, y := Rank(ms, s).ranked[i].score, Rank(ms, s).ranked[j].score;
            && x.Some? && y.Some?
            && (|| x.value < y.value
                || (x.value == y.value
                    && (a.priority < b.priority || (a.priority == b.priority && TextLe(a.modelId, b.modelId)))))
  {
    var answered := Answered(ms);
    var axes := AxesOf(answered, s);
    EveryModelRankedOnce(ms, s);
    SizeOfSort(answered, axes);
    SortSorts(answered, axes);
    assert Precedes(Sort(answered, axes)[i], Sort(answered, axes)[j], axes);
  }

  // ---- ties keep their order ------------------------------------------------------------------------------

  /** The measurements that neither come before nor after `x`. */
  function Tied(ms: seq<Measurement>, x: Measurement, axes: Axes): seq<Measurement> {
    if ms == [] then []
    else (if Precedes(ms[0], x, axes) && Precedes(x, ms[0], axes) then [ms[0]] else []) + Tied(ms[1..], x, axes)
  }

  lemma {:induction false} InsertKeepsTies(m: Measurement, sorted: seq<Measurement>, x: Measurement, axes: Axes)
    ensures Tied(Insert(m, sorted, axes), x, axes) == Tied([m] + sorted, x, axes)
    decreases sorted
  {
    if sorted != [] && !Precedes(m, sorted[0], axes) {
      InsertKeepsTies(m, sorted[1..], x, axes);
      assert ([m] + sorted)[1..] == sorted && ([m] + sorted[1..])[1..] == sorted[1..];
      if Precedes(m, x, axes) && Precedes(x, sorted[0], axes) {
        PrecedesTransitive(m, x, sorted[0], axes);
      }
    }
  }

  /** The sort is stable: what ties in score, priority and id stays in the order it was measured. */
  lemma {:induction false} SortIsStable(ms: seq<Measurement>, x: Measurement, axes: Axes)
    ensures Tied(Sort(ms, axes), x, axes) == Tied(ms, x, axes)
    decreases ms
  {
    if ms != [] {
      SortIsStable(ms[1..], x, axes);
      InsertKeepsTies(ms[0], Sort(ms[1..], axes), x, axes);
      assert ([ms[0]] + Sort(ms[1..], axes))[1..] == Sort(ms[1..], axes);
    }
  }

  // ---- price takes part only when it can be compared ------------------------------------------------------

  lemma {:induction false} CurrencyFacts(ms: seq<Measurement>)
    ensures |CurrenciesOf(ms)| <= |ms|
    ensures |CurrenciesOf(ms)| == |ms| <==> forall m :: m in ms ==> m.price.Some?
    ensures forall c :: c in CurrenciesOf(ms) <==> exists m :: m in ms && m.price.Some? && m.price.value.currency == c
    decreases ms
  {
    if ms != [] {
      CurrencyFacts(ms[1..]);
      assert ms == [ms[0]] + ms[1..];
      assert forall m :: m in ms[1..] ==> m in ms;
      assert ms[0] in ms;
    }
  }

  lemma {:induction false} NeighboursAgreeAll(cs: seq<string>)
    ensures NeighboursAgree(cs) <==> forall i :: 0 <= i < |cs| ==> cs[i] == cs[0]
    decreases cs
  {
    if |cs| > 1 {
      var rest := cs[1..];
      NeighboursAgreeAll(rest);
      assert forall i :: 0 <= i < |rest| ==> rest[i] == cs[i + 1];
      if NeighboursAgree(cs) {
        forall i | 0 <= i < |cs|
          ensures cs[i] == cs[0]
        {
          assert i > 0 ==> cs[i] == rest[i - 1];
        }
      }
    }
  }

  /** Two priced in one currency. */
  predicate Comparable(a: Measurement, b: Measurement) {
    a.price.Some? && b.price.Some? && a.price.value.currency == b.price.value.currency
  }

  /** Price is scored exactly when every model that answered has one, all in one currency. */
  lemma PriceCountsWhen(ms: seq<Measurement>)
    ensures PriceCounts(ms) <==> forall a, b :: a in ms && b in ms ==> Comparable(a, b)
  {
    var cs := CurrenciesOf(ms);
    CurrencyFacts(ms);
    NeighboursAgreeAll(cs);
    if PriceCounts(ms) {
      forall a, b | a in ms && b in ms
        ensures Comparable(a, b)
      {
        assert a.price.value.currency in cs && b.price.value.currency in cs;
      }
    }
    if forall a, b :: a in ms && b in ms ==> Comparable(a, b) {
      forall m | m in ms
        ensures m.price.Some?
      {
        assert Comparable(m, m);
      }
      forall i | 0 <= i < |cs|
        ensures cs[i] == cs[0]
      {
        assert cs[i] in cs && cs[0] in cs;
        var a :| a in ms && a.price.Some? && a.price.value.currency == cs[i];
        var b :| b in ms && b.price.Some? && b.price.value.currency == cs[0];
        assert Comparable(a, b);
      }
    }
  }

  // ---- the order of the input does not matter -------------------------------------------------------------

  lemma {:induction false} MinOfIsLeast(values: seq<real>) returns (at: nat)
    requires values != []
    ensures at < |values| && values[at] == MinOf(values)
    ensures forall i :: 0 <= i < |values| ==> MinOf(values) <= values[i]
    decreases values
  {
    at := 0;
    if |values| > 1 {
      var next := MinOfIsLeast(values[1..]);
      at := if values[0] < MinOf(values[1..]) then 0 else next + 1;
      assert forall i :: 1 <= i < |values| ==> values[i] == values[1..][i - 1];
    }
  }

  ghost predicate SameMembers(xs: seq<Measurement>, ys: seq<Measurement>) {
    forall m :: m in xs <==> m in ys
  }

  lemma MinOfIgnoresOrder(vs: seq<real>, ws: seq<real>)
    requires vs != [] && ws != [] && forall v :: v in vs <==> v in ws
    ensures MinOf(vs) == MinOf(ws)
  {
    var i := MinOfIsLeast(vs);
    var j := MinOfIsLeast(ws);
    assert vs[i] in ws && ws[j] in vs;
  }

  lemma BestsIgnoreOrder(xs: seq<Measurement>, ys: seq<Measurement>)
    requires SameMembers(xs, ys) && xs != [] && ys != []
    ensures MinOf(Latencies(xs)) == MinOf(Latencies(ys)) && MinOf(Prices(xs)) == MinOf(Prices(ys))
  {
    ValuesFollow(xs, ys);
    ValuesFollow(ys, xs);
    MinOfIgnoresOrder(Latencies(xs), Latencies(ys));
    MinOfIgnoresOrder(Prices(xs), Prices(ys));
  }

  lemma ValuesFollow(xs: seq<Measurement>, ys: seq<Measurement>)
    requires SameMembers(xs, ys)
    ensures forall v :: v in Latencies(xs) ==> v in Latencies(ys)
    ensures forall v :: v in Prices(xs) ==> v in Prices(ys)
  {
    forall i | 0 <= i < |xs|
      ensures Latency(xs[i]) in Latencies(ys) && Price(xs[i]) in Prices(ys)
    {
      assert xs[i] in ys;
      var j :| 0 <= j < |ys| && ys[j] == xs[i];
      assert Latencies(ys)[j] == Latency(xs[i]) && Prices(ys)[j] == Price(xs[i]);
    }
  }

  lemma PriceCountsIgnoresOrder(xs: seq<Measurement>, ys: seq<Measurement>)
    requires SameMembers(xs, ys)
    ensures PriceCounts(xs) == PriceCounts(ys)
  {
    PriceCountsWhen(xs);
    PriceCountsWhen(ys);
  }

  lemma CurrenciesIgnoreOrder(xs: seq<Measurement>, ys: seq<Measurement>)
    requires SameMembers(xs, ys)
    ensures |CurrenciesOf(xs)| == |xs| <==> |CurrenciesOf(ys)| == |ys|
    ensures (set c | c in CurrenciesOf(xs)) == (set c | c in CurrenciesOf(ys))
  {
    CurrencyFacts(xs);
    CurrencyFacts(ys);
  }

  lemma AxesIgnoreOrder(xs: seq<Measurement>, ys: seq<Measurement>, s: Scoring)
    requires multiset(xs) == multiset(ys) && xs != [] && ys != []
    ensures AxesOf(xs, s) == AxesOf(ys, s) && NoteOf(xs) == NoteOf(ys)
  {
    assert SameMembers(xs, ys) by {
      forall m
        ensures m in xs <==> m in ys
      {
        assert m in xs <==> m in multiset(xs);
        assert m in ys <==> m in multiset(ys);
      }
    }
    BestsIgnoreOrder(xs, ys);
    PriceCountsIgnoresOrder(xs, ys);
    CurrenciesIgnoreOrder(xs, ys);
  }

  lemma {:induction false} AnsweredCount(ms: seq<Measurement>, m: Measurement)
    ensures multiset(Answered(ms))[m] == if m.latency.Some? then multiset(ms)[m] else 0
    decreases ms
  {
    if ms != [] {
      AnsweredCount(ms[1..], m);
      assert ms == [ms[0]] + ms[1..];
    }
  }

  /** However the measurements are listed, the same models come first with the same scores. */
  lemma RankIgnoresInputOrder(xs: seq<Measurement>, ys: seq<Measurement>, s: Scoring)
    requires multiset(xs) == multiset(ys) && IdsIdentify(xs)
    ensures var n := |Answered(xs)|;
            && n == |Answered(ys)| && n <= |Rank(xs, s).ranked| == |Rank(ys, s).ranked|
            && Rank(xs, s).ranked[..n] == Rank(ys, s).ranked[..n]
            && Rank(xs, s).priced == Rank(ys, s).priced && Rank(xs, s).note == Rank(ys, s).note
  {
    var a, b := Answered(xs), Answered(ys);
    forall m
      ensures multiset(a)[m] == multiset(b)[m]
    {
      AnsweredCount(xs, m);
      AnsweredCount(ys, m);
    }
    assert multiset(a) == multiset(b);
    assert |multiset(a)| == |a| && |multiset(b)| == |b|;
    Partition(xs);
    Partition(ys);
    assert |multiset(xs)| == |xs| && |multiset(ys)| == |ys|;
    assert |multiset(Unanswered(xs))| == |Unanswered(xs)| && |multiset(Unanswered(ys))| == |Unanswered(ys)|;
    if a != [] {
      AxesIgnoreOrder(a, b, s);
      var axes := AxesOf(a, s);
      SortSorts(a, axes);
      SortSorts(b, axes);
      assert |multiset(Sort(a, axes))| == |Sort(a, axes)|;
      SortedIsUnique(Sort(a, axes), Sort(b, axes), xs, axes);
    }
  }

  // ---- scores ---------------------------------------------------------------------------------------------

  lemma ProductSign(a: real, b: real)
    requires a >= 0.0 && b >= 0.0
    ensures a * b >= 0.0
  {
  }

  lemma RatioRange(value: real, best: real)
    ensures 1.0 <= Ratio(value, best) <= WORST_RATIO
  {
  }

  predicate Normalised(weights: Weighting) {
    weights.price >= 0.0 && weights.latency >= 0.0 && weights.price + weights.latency == 1.0
  }

  lemma WeightsNormalised(s: Scoring)
    ensures Normalised(Weights(s))
  {
  }

  lemma BlendMonotone(weights: Weighting, x: real, y: real, u: real, v: real)
    requires Normalised(weights) && x <= u && y <= v
    ensures Blend(weights, x, y) <= Blend(weights, u, v)
  {
    var p, l := weights.price, weights.latency;
    ProductSign(p, u - x);
    ProductSign(l, v - y);
    assert p * (u - x) == p * u - p * x;
    assert l * (v - y) == l * v - l * y;
  }

  /** No axis can run away with the score, whatever the weights, the prices and the latencies. */
  lemma ScoresInRange(ms: seq<Measurement>, s: Scoring, i: nat)
    requires i < |Rank(ms, s).ranked| && Rank(ms, s).ranked[i].score.Some?
    ensures 1.0 <= Rank(ms, s).ranked[i].score.value <= WORST_RATIO
  {
    var answered := Answered(ms);
    var axes := AxesOf(answered, s);
    WeightsNormalised(s);
    ScoreRange(Sort(answered, axes)[i], axes);
  }

  lemma ScoreRange(m: Measurement, axes: Axes)
    requires Normalised(axes.weights)
    ensures 1.0 <= Score(m, axes) <= WORST_RATIO
  {
    var price, latency := Ratio(Price(m), axes.bestPrice), Ratio(Latency(m), axes.bestLatency);
    RatioRange(Latency(m), axes.bestLatency);
    RatioRange(Price(m), axes.bestPrice);
    BlendMonotone(axes.weights, 1.0, 1.0, price, latency);
    BlendMonotone(axes.weights, price, latency, WORST_RATIO, WORST_RATIO);
  }

  lemma RatioMonotone(v: real, w: real, best: real)
    requires v <= w
    ensures Ratio(v, best) <= Ratio(w, best)
  {
    RatioRange(v, best);
    RatioRange(w, best);
    if v > best && best > 0.0 {
      assert (v / best) * best == v;
    }
  }

  /** A model no slower and no dearer never scores worse, so it only comes later when it ties and its priority or
      id puts it there. */
  lemma BetterOnBothAxes(a: Measurement, b: Measurement, answered: seq<Measurement>, s: Scoring)
    requires a in answered && b in answered && Latency(a) <= Latency(b) && (PriceCounts(answered) ==> Price(a) <= Price(b))
    ensures var axes := AxesOf(answered, s);
            && Score(a, axes) <= Score(b, axes)
            && (Precedes(b, a, axes) ==> Score(a, axes) == Score(b, axes) && (b.priority < a.priority || TextLe(b.modelId, a.modelId)))
  {
    var axes := AxesOf(answered, s);
    RatioMonotone(Latency(a), Latency(b), axes.bestLatency);
    if axes.priced {
      RatioMonotone(Price(a), Price(b), axes.bestPrice);
      WeightsNormalised(s);
      BlendMonotone(axes.weights, Ratio(Price(a), axes.bestPrice), Ratio(Latency(a), axes.bestLatency),
                    Ratio(Price(b), axes.bestPrice), Ratio(Latency(b), axes.bestLatency));
    }
  }

  // ---- scaling --------------------------------------------------------------------------------------------

  /** Only the proportion of the weights counts. */
  lemma ScalingWeightsChangesNothing(ms: seq<Measurement>, s: Scoring, c: real)
    requires c > 0.0
    ensures Rank(ms, Scoring(c * s.priceWeight, c * s.latencyWeight)) == Rank(ms, s)
  {
    WeightsScale(s, c);
  }

  lemma WeightsScale(s: Scoring, c: real)
    requires c > 0.0
    ensures Weights(Scoring(c * s.priceWeight, c * s.latencyWeight)) == Weights(s)
  {
    ScaledMax(c, s.priceWeight);
    ScaledMax(c, s.latencyWeight);
    ProportionsScale(Max(s.priceWeight, 0.0), Max(s.latencyWeight, 0.0), c);
  }

  lemma ScaledMax(c: real, a: real)
    requires c > 0.0
    ensures Max(c * a, 0.0) == c * Max(a, 0.0)
  {
    if a >= 0.0 {
      ProductSign(c, a);
    } else {
      ProductSign(c, -a);
      assert c * -a == -(c * a);
    }
  }

  lemma ProportionsScale(price: real, latency: real, c: real)
    requires c > 0.0 && price >= 0.0 && latency >= 0.0
    ensures Proportions(c * price, c * latency) == Proportions(price, latency)
  {
    var total, scaled := price + latency, c * (price + latency);
    assert c * price + c * latency == scaled;
    if total > 0.0 {
      ScaledQuotient(c, price, total);
      ScaledQuotient(c, latency, total);
    } else {
      assert price == 0.0 && latency == 0.0;
    }
  }

  lemma ScaledQuotient(c: real, a: real, b: real)
    requires c > 0.0 && b > 0.0
    ensures c * b > 0.0 && (c * a) / (c * b) == a / b
  {
    var q := a / b;
    assert q * b == a;
    assert q * (c * b) == c * a;
  }

  /** A change of prices that the ratios between them do not see. */
  ghost predicate KeepsRatios(f: real -> real) {
    && f(0.0) == 0.0
    && (forall a, b :: a <= b ==> f(a) <= f(b))
    && forall value, best :: Ratio(f(value), f(best)) == Ratio(value, best)
  }

  function ScaledCost(f: real -> real, price: Option<Cost>): Option<Cost> {
    if price.None? then None else Some(Cost(price.value.currency, f(price.value.amount)))
  }

  function Scaled(f: real -> real, m: Measurement): Measurement {
    m.(price := ScaledCost(f, m.price))
  }

  function ScaledAll(f: real -> real, ms: seq<Measurement>): seq<Measurement> {
    seq(|ms|, i requires 0 <= i < |ms| => Scaled(f, ms[i]))
  }

  lemma PrecedesScales(f: real -> real, a: Measurement, b: Measurement, axes: Axes)
    requires KeepsRatios(f)
    ensures Precedes(Scaled(f, a), Scaled(f, b), axes.(bestPrice := f(axes.bestPrice))) <==> Precedes(a, b, axes)
  {
  }

  lemma ScaledFirst(f: real -> real, m: Measurement, rest: seq<Measurement>)
    ensures ScaledAll(f, [m] + rest) == [Scaled(f, m)] + ScaledAll(f, rest)
  {
  }

  lemma {:induction false} InsertScales(f: real -> real, m: Measurement, sorted: seq<Measurement>, axes: Axes)
    requires KeepsRatios(f)
    ensures Insert(Scaled(f, m), ScaledAll(f, sorted), axes.(bestPrice := f(axes.bestPrice))) == ScaledAll(f, Insert(m, sorted, axes))
    decreases sorted
  {
    if sorted != [] {
      PrecedesScales(f, m, sorted[0], axes);
      if !Precedes(m, sorted[0], axes) {
        InsertScales(f, m, sorted[1..], axes);
        assert ScaledAll(f, sorted)[1..] == ScaledAll(f, sorted[1..]);
        ScaledFirst(f, sorted[0], Insert(m, sorted[1..], axes));
      } else {
        ScaledFirst(f, m, sorted);
      }
    }
  }

  lemma {:induction false} SortScales(f: real -> real, ms: seq<Measurement>, axes: Axes)
    requires KeepsRatios(f)
    ensures Sort(ScaledAll(f, ms), axes.(bestPrice := f(axes.bestPrice))) == ScaledAll(f, Sort(ms, axes))
    decreases ms
  {
    if ms != [] {
      SortScales(f, ms[1..], axes);
      InsertScales(f, ms[0], Sort(ms[1..], axes), axes);
      assert ScaledAll(f, ms)[1..] == ScaledAll(f, ms[1..]);
    }
  }

  lemma {:induction false} AnsweredScales(f: real -> real, ms: seq<Measurement>)
    ensures Answered(ScaledAll(f, ms)) == ScaledAll(f, Answered(ms))
    decreases ms
  {
    if ms != [] {
      var rest := ms[1..];
      AnsweredScales(f, rest);
      assert ScaledAll(f, ms)[1..] == ScaledAll(f, rest);
      if ms[0].latency.Some? {
        ScaledFirst(f, ms[0], Answered(rest));
      } else {
        assert [] + Answered(rest) == Answered(rest);
      }
    }
  }

  lemma {:induction false} UnansweredScales(f: real -> real, ms: seq<Measurement>)
    ensures Unanswered(ScaledAll(f, ms)) == ScaledAll(f, Unanswered(ms))
    decreases ms
  {
    if ms != [] {
      var rest := ms[1..];
      UnansweredScales(f, rest);
      assert ScaledAll(f, ms)[1..] == ScaledAll(f, rest);
      if ms[0].latency.None? {
        ScaledFirst(f, ms[0], Unanswered(rest));
      } else {
        assert [] + Unanswered(rest) == Unanswered(rest);
      }
    }
  }

  lemma {:induction false} CurrenciesScale(f: real -> real, ms: seq<Measurement>)
    ensures CurrenciesOf(ScaledAll(f, ms)) == CurrenciesOf(ms)
    decreases ms
  {
    if ms != [] {
      CurrenciesScale(f, ms[1..]);
      assert ScaledAll(f, ms)[1..] == ScaledAll(f, ms[1..]);
    }
  }

  lemma MinOfMapped(f: real -> real, vs: seq<real>, ws: seq<real>)
    requires forall a, b :: a <= b ==> f(a) <= f(b)
    requires vs != [] && |ws| == |vs| && forall i :: 0 <= i < |vs| ==> ws[i] == f(vs[i])
    ensures MinOf(ws) == f(MinOf(vs))
  {
  }

  function Repriced(f: real -> real, r: Ranked): Ranked {
    r.(price := ScaledCost(f, r.price))
  }

  function RepricedAll(f: real -> real, rs: seq<Ranked>): seq<Ranked> {
    seq(|rs|, i requires 0 <= i < |rs| => Repriced(f, rs[i]))
  }

  lemma PlacesScale(f: real -> real, order: seq<Measurement>, axes: Axes)
    requires KeepsRatios(f)
    ensures Places(ScaledAll(f, order), axes.(bestPrice := f(axes.bestPrice))) == RepricedAll(f, Places(order, axes))
  {
  }

  lemma AxesScale(f: real -> real, answered: seq<Measurement>, s: Scoring)
    requires KeepsRatios(f) && answered != []
    ensures AxesOf(ScaledAll(f, answered), s) == AxesOf(answered, s).(bestPrice := f(AxesOf(answered, s).bestPrice))
    ensures NoteOf(ScaledAll(f, answered)) == NoteOf(answered)
  {
    CurrenciesScale(f, answered);
    assert Latencies(ScaledAll(f, answered)) == Latencies(answered);
    forall m
      ensures Price(Scaled(f, m)) == f(Price(m))
    {
    }
    MinOfMapped(f, Prices(answered), Prices(ScaledAll(f, answered)));
  }

  /** A change of prices that keeps their ratios changes no score and no place. */
  lemma RatiosDecide(ms: seq<Measurement>, s: Scoring, f: real -> real)
    requires KeepsRatios(f)
    ensures Rank(ScaledAll(f, ms), s).ranked == RepricedAll(f, Rank(ms, s).ranked)
    ensures Rank(ScaledAll(f, ms), s).priced == Rank(ms, s).priced && Rank(ScaledAll(f, ms), s).note == Rank(ms, s).note
  {
    var answered, unanswered := Answered(ms), Unanswered(ms);
    AnsweredScales(f, ms);
    UnansweredScales(f, ms);
    if answered != [] {
      var axes := AxesOf(answered, s);
      AxesScale(f, answered, s);
      SortScales(f, answered, axes);
      PlacesScale(f, Sort(answered, axes), axes);
      var places := Places(Sort(answered, axes), axes);
      RepricedConcat(f, places, Rest(unanswered));
      assert Rank(ms, s).ranked == places + Rest(unanswered);
    }
  }

  lemma RepricedConcat(f: real -> real, xs: seq<Ranked>, ys: seq<Ranked>)
    ensures RepricedAll(f, xs + ys) == RepricedAll(f, xs) + RepricedAll(f, ys)
  {
  }

  function Times(c: real): real -> real {
    x => c * x
  }

  lemma TimesKeepsRatios(c: real)
    requires c > 0.0
    ensures KeepsRatios(Times(c))
  {
    forall a: real, b: real | a <= b
      ensures Times(c)(a) <= Times(c)(b)
    {
      ProductSign(c, b - a);
      assert c * (b - a) == c * b - c * a;
    }
    forall value: real, best: real
      ensures Ratio(Times(c)(value), Times(c)(best)) == Ratio(value, best)
    {
    }
  }

  /** Quoting every price in another unit changes no score and no place, free models and capped ratios included. */
  lemma ScalingPricesChangesNothingElse(ms: seq<Measurement>, s: Scoring, c: real)
    requires c > 0.0
    ensures var plain, scaled := Rank(ms, s), Rank(ScaledAll(Times(c), ms), s);
            scaled == plain.(ranked := RepricedAll(Times(c), plain.ranked))
  {
    TimesKeepsRatios(c);
    RatiosDecide(ms, s, Times(c));
  }
}
