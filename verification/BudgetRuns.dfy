/** Whole runs of the ledger: what a budget reads is what was charged to it, and how far a limit can be passed. */
module BudgetRuns {
  import opened Budget
  import opened Calendar
  import opened LedgerKeys
  import opened Text
  import opened TextOrder
  import opened Tiers
  import opened Wrappers

  // ---- one charge -----------------------------------------------------------------------------------------

  datatype Charge = Charge(at: Date, provider: string, tier: Option<Tier>, currency: string, amount: real)

  predicate InScope(scope: BudgetScope, c: Charge) {
    match scope
    case Global => true
    case Provider(id) => id == c.provider
    case ByTier(tier) => c.tier == Some(tier)
  }

  /** The charge counts towards this scope, period and currency as of `at`. */
  predicate Counts(c: Charge, budget: Budget, at: Date) {
    InScope(budget.scope, c) && c.currency == budget.currency && SamePeriod(budget.period, c.at, at)
  }

  function Share(c: Charge, budget: Budget, at: Date): real {
    if Counts(c, budget, at) then c.amount else 0.0
  }

  lemma {:induction false} ChargeReachesScopes(entries: Entries, scopes: seq<BudgetScope>, c: Charge, budget: Budget, at: Date)
    requires Valid(c.at) && Valid(at) && Barless(budget.scope)
    requires forall i :: 0 <= i < |scopes| ==> Barless(scopes[i])
    requires forall i, j :: 0 <= i < j < |scopes| ==> scopes[i] != scopes[j]
    ensures Spent(AddAll(entries, ChargeKeys(scopes, c.currency, c.at), c.amount), budget, at) ==
            Spent(entries, budget, at) +
            if budget.scope in scopes && c.currency == budget.currency && SamePeriod(budget.period, c.at, at)
            then c.amount else 0.0
    decreases scopes
  {
    if scopes != [] {
      var first, rest := scopes[0], scopes[1..];
      var day, month := LedgerKey(first, Day, c.currency, c.at), LedgerKey(first, Month, c.currency, c.at);
      AddTwo(entries, day, month, ChargeKeys(rest, c.currency, c.at), c.amount);
      ScopeCharged(entries, first, c, budget, at);
      ChargeReachesScopes(Add(Add(entries, day, c.amount), month, c.amount), rest, c, budget, at);
      assert scopes == [first] + rest;
    }
  }

  lemma ScopeCharged(entries: Entries, scope: BudgetScope, c: Charge, budget: Budget, at: Date)
    requires Valid(c.at) && Valid(at) && Barless(budget.scope) && Barless(scope)
    ensures var day, month := LedgerKey(scope, Day, c.currency, c.at), LedgerKey(scope, Month, c.currency, c.at);
            Spent(Add(Add(entries, day, c.amount), month, c.amount), budget, at) ==
            Spent(entries, budget, at) +
            if budget.scope == scope && c.currency == budget.currency && SamePeriod(budget.period, c.at, at) then c.amount else 0.0
  {
    KeysIdentifyBuckets(scope, Day, c.currency, c.at, budget.scope, budget.period, budget.currency, at);
    KeysIdentifyBuckets(scope, Month, c.currency, c.at, budget.scope, budget.period, budget.currency, at);
  }

  /** A charge raises exactly the budgets it counts towards. */
  lemma ChargeCounts(entries: Entries, c: Charge, budget: Budget, at: Date)
    requires Valid(c.at) && Valid(at) && Barless(budget.scope) && '|' !in c.provider
    ensures Spent(Charged(entries, c.at, c.provider, c.tier, c.currency, c.amount), budget, at) ==
            Spent(entries, budget, at) + Share(c, budget, at)
  {
    ChargeReachesScopes(entries, Scopes(c.provider, c.tier), c, budget, at);
    assert budget.scope in Scopes(c.provider, c.tier) <==> InScope(budget.scope, c);
  }

  // ---- pruning --------------------------------------------------------------------------------------------

  /** Pruning never drops the bucket of a period that is current then or later. */
  lemma CurrentBucketStays(scope: BudgetScope, period: BudgetPeriod, currency: string, pruned: Date, at: Date)
    requires Barless(scope) && Recent(pruned) && Valid(at) && NotAfter(pruned, at)
    ensures Retained(LedgerKey(scope, period, currency, at), pruned)
  {
    BarInScopeKey(scope);
    KeyIsJoined(scope, period, currency, at);
    SecondPartOfJoined(ScopeKey(scope), Joined(PeriodKey(period, at), currency));
    FirstOfJoined(PeriodKey(period, at), currency);
    DashesTellPeriods(at);
    match period {
      case Day => CurrentDayIsAfterCutoff(pruned, at);
      case Month => CurrentMonthIsAfterCutoff(pruned, at);
    }
  }

  lemma CurrentDayIsAfterCutoff(pruned: Date, at: Date)
    requires Recent(pruned) && Valid(at) && NotAfter(pruned, at)
    ensures TextLe(DayText(MinusDays(pruned, 40)), DayText(at))
  {
    var cutoff := MinusDays(pruned, 40);
    DayTextOrder(cutoff, at);
  }

  lemma CurrentMonthIsAfterCutoff(pruned: Date, at: Date)
    requires Recent(pruned) && Valid(at) && NotAfter(pruned, at)
    ensures TextLe(MonthCutoff(pruned), MonthText(at.year, at.month))
  {
    var year, month := MonthOfCutoff(pruned);
    MonthTextOrder(year, month, at.year, at.month);
  }

  lemma MonthOfCutoff(pruned: Date) returns (year: nat, month: nat)
    requires Recent(pruned)
    ensures year < pruned.year && 1 <= month <= 12 && MonthCutoff(pruned) == MonthText(year, month)
  {
    var months := MonthIndex(pruned) - 13;
    year, month := months / 12, months % 12 + 1;
  }

  lemma PruneKeepsCurrent(entries: Entries, budget: Budget, pruned: Date, at: Date)
    requires Barless(budget.scope) && Recent(pruned) && Valid(at) && NotAfter(pruned, at)
    ensures Spent(Pruned(entries, pruned), budget, at) == Spent(entries, budget, at)
  {
    CurrentBucketStays(budget.scope, budget.period, budget.currency, pruned, at);
  }

  /** What stands between the first separator and the next, or the end. */
  function Middle(s: string): string
    requires '|' in s
  {
    First(s[IndexOf(s, '|') + 1..])
  }

  /** Pruning keeps the bucket of a current period exactly when the provider id has no bar, or what follows its first
      bar happens to read as a recent period. */
  lemma CurrentBucketStaysExactly(scope: BudgetScope, period: BudgetPeriod, currency: string, pruned: Date, at: Date)
    requires Recent(pruned) && Valid(at) && NotAfter(pruned, at)
    ensures '|' in ScopeKey(scope) <==> !Barless(scope)
    ensures Retained(LedgerKey(scope, period, currency, at), pruned) <==>
            Barless(scope) || RetainedPeriod(Middle(ScopeKey(scope)), pruned)
  {
    BarInScopeKey(scope);
    if Barless(scope) {
      CurrentBucketStays(scope, period, currency, pruned, at);
    } else {
      KeyIsJoined(scope, period, currency, at);
      SecondPartWithBar(ScopeKey(scope), Joined(PeriodKey(period, at), currency));
    }
  }

  lemma SecondPartWithBar(s: string, rest: string)
    requires '|' in s
    ensures SecondPart(Joined(s, rest)) == Some(Middle(s))
  {
    var a, b := Unjoin(s);
    JoinedCut(a, b);
    JoinedAssociates(a, b, rest);
    SecondPartOfJoined(a, Joined(b, rest));
    FirstOfJoined(b, rest);
  }

  /** With a bar in a provider id the period is read from the wrong part: today's spend is dropped today. */
  lemma BarInIdForgetsSpend(at: Date, currency: string, period: BudgetPeriod)
    requires Recent(at)
    ensures !Retained(LedgerKey(Provider("a|0"), period, currency, at), at)
  {
    var scope := Provider("a|0");
    CurrentBucketStaysExactly(scope, period, currency, at, at);
    MiddleIsZero();
    ZeroIsNotRetained(at);
  }

  lemma MiddleIsZero()
    ensures !Barless(Provider("a|0")) && Middle(ScopeKey(Provider("a|0"))) == "0"
  {
    var front: string, zero: string := "provider:a", "0";
    assert ScopeKey(Provider("a|0")) == Joined(front, zero);
    assert forall i :: 0 <= i < |front| ==> front[i] != '|';
    assert zero[0] != '|';
    MiddleOfJoined(front, zero);
    FirstOfJoined(zero, "");
  }

  lemma MiddleOfJoined(a: string, b: string)
    requires '|' !in a
    ensures '|' in Joined(a, b) && Middle(Joined(a, b)) == First(b)
  {
    JoinedCut(a, b);
  }

  lemma ZeroIsNotRetained(at: Date)
    requires Recent(at)
    ensures !RetainedPeriod("0", at)
  {
    assert "0"[1..] == [];
    assert Dashes([]) == 0 && Dashes("0") == 0;
    var cutoff := MonthCutoff(at);
    assert '0' <= cutoff[0] && cutoff[1..] != [];
    assert !TextLe(cutoff[1..], "0"[1..]);
    assert !TextLe(cutoff, "0");
  }

  // ---- runs of the ledger ---------------------------------------------------------------------------------

  datatype Event = Spending(charge: Charge) | Pruning(at: Date)

  function When(e: Event): Date {
    match e
    case Spending(c) => c.at
    case Pruning(at) => at
  }

  ghost predicate Orderly(events: seq<Event>) {
    && (forall i :: 0 <= i < |events| ==> Recent(When(events[i])))
    && (forall i :: 0 <= i < |events| && events[i].Spending? ==>
          '|' !in events[i].charge.provider && events[i].charge.amount >= 0.0)
    && (forall i, j :: 0 <= i < j < |events| ==> NotAfter(When(events[i]), When(events[j])))
  }

  function Replay(events: seq<Event>): Entries
    requires forall i :: 0 <= i < |events| ==> Recent(When(events[i]))
    decreases |events|
  {
    if events == [] then map[]
    else
      var before, last := Replay(events[..|events| - 1]), events[|events| - 1];
      assert Recent(When(last));
      match last
      case Spending(c) => Charged(before, c.at, c.provider, c.tier, c.currency, c.amount)
      case Pruning(at) => Pruned(before, at)
  }

  /** What was charged to a budget in its period, from the history alone. */
  function Total(events: seq<Event>, budget: Budget, at: Date): real
    decreases |events|
  {
    if events == [] then 0.0
    else
      var last := events[|events| - 1];
      Total(events[..|events| - 1], budget, at) + if last.Spending? then Share(last.charge, budget, at) else 0.0
  }

  ghost predicate Past(events: seq<Event>, at: Date) {
    forall i :: 0 <= i < |events| ==> NotAfter(When(events[i]), at)
  }

  /** In every run of charges and prunes, what a budget reads is the sum of all charges that count towards it. */
  lemma {:induction false} LedgerCountsCharges(events: seq<Event>, budget: Budget, at: Date)
    requires Orderly(events) && Past(events, at) && Valid(at) && Barless(budget.scope)
    ensures Spent(Replay(events), budget, at) == Total(events, budget, at)
    decreases |events|
  {
    if events != [] {
      var before, last := events[..|events| - 1], events[|events| - 1];
      LedgerCountsCharges(before, budget, at);
      match last
      case Spending(c) => ChargeCounts(Replay(before), c, budget, at);
      case Pruning(p) => PruneKeepsCurrent(Replay(before), budget, p, at);
    }
  }

  /** Time passing keeps a budget's total or, with a new period, brings it back to nothing. */
  lemma {:induction false} TotalOverTime(events: seq<Event>, budget: Budget, at: Date, later: Date)
    requires Orderly(events) && Past(events, at) && NotAfter(at, later)
    ensures Total(events, budget, at) >= 0.0
    ensures Total(events, budget, later) == if SamePeriod(budget.period, at, later) then Total(events, budget, at) else 0.0
    decreases |events|
  {
    if events != [] {
      var before := events[..|events| - 1];
      TotalOverTime(before, budget, at, later);
      assert NotAfter(When(events[|events| - 1]), at);
    }
  }

  // ---- admission ------------------------------------------------------------------------------------------

  datatype Request = Request(providers: seq<string>, tier: Option<Tier>)

  /** The ledger's history, the requests admitted and not yet settled, and the time. */
  datatype World = World(log: seq<Event>, inFlight: seq<Request>, clock: Date)

  datatype Move =
    | Admit(request: Request, at: Date)
    | Settle(index: nat, provider: string, currency: string, amount: real, at: Date)
    | Abandon(index: nat)
    | Tidy(at: Date)

  function Without(requests: seq<Request>, index: nat): seq<Request>
    requires index < |requests|
  {
    requests[..index] + requests[index + 1..]
  }

  function InFlightFor(requests: seq<Request>, budget: Budget): nat
    decreases requests
  {
    if requests == [] then 0
    else
      (if Covers(budget, requests[0].providers, requests[0].tier) then 1 else 0) + InFlightFor(requests[1..], budget)
  }

  /** Requests enter only on an allowing check and with room under the admission bound of every budget, and leave
      when they are settled, at a cost of at most `most`, on a provider they were admitted for. */
  ghost predicate Possible(w: World, m: Move, budgets: seq<Budget>, room: nat, most: real)
    requires Orderly(w.log)
  {
    match m
    case Admit(r, at) =>
      && Recent(at) && NotAfter(w.clock, at)
      && Decide(budgets, Replay(w.log), Query(at, r.providers, r.tier), None).Allow?
      && forall b :: b in budgets ==> InFlightFor([r] + w.inFlight, b) <= room
    case Settle(i, provider, _, amount, at) =>
      && Recent(at) && NotAfter(w.clock, at)
      && i < |w.inFlight| && provider in w.inFlight[i].providers && '|' !in provider
      && 0.0 <= amount <= most
    case Abandon(i) => i < |w.inFlight|
    case Tidy(at) => Recent(at) && NotAfter(w.clock, at)
  }

  function Next(w: World, m: Move): World
    requires m.Settle? || m.Abandon? ==> m.index < |w.inFlight|
  {
    match m
    case Admit(r, at) => World(w.log, [r] + w.inFlight, at)
    case Settle(i, provider, currency, amount, at) =>
      World(w.log + [Spending(Charge(at, provider, w.inFlight[i].tier, currency, amount))], Without(w.inFlight, i), at)
    case Abandon(i) => w.(inFlight := Without(w.inFlight, i))
    case Tidy(at) => World(w.log + [Pruning(at)], w.inFlight, at)
  }

  ghost predicate Sane(w: World) {
    Orderly(w.log) && Recent(w.clock) && Past(w.log, w.clock)
  }

  ghost predicate Run(w: World, moves: seq<Move>, end: World, budgets: seq<Budget>, room: nat, most: real)
    requires Sane(w)
    decreases moves
  {
    if moves == [] then w == end
    else
      && Possible(w, moves[0], budgets, room, most)
      && (StaysSane(w, moves[0], budgets, room, most); Run(Next(w, moves[0]), moves[1..], end, budgets, room, most))
  }

  lemma StaysSane(w: World, m: Move, budgets: seq<Budget>, room: nat, most: real)
    requires Sane(w) && Possible(w, m, budgets, room, most)
    ensures Sane(Next(w, m))
  {
    forall i | 0 <= i < |w.log|
      ensures NotAfter(When(w.log[i]), Next(w, m).clock)
    {
    }
  }

  /** `n` times `most`. */
  function Reserve(n: nat, most: real): real {
    if n == 0 then 0.0 else most + Reserve(n - 1, most)
  }

  lemma {:induction false} ReserveIsProduct(n: nat, most: real)
    ensures Reserve(n, most) == n as real * most
  {
    if n > 0 {
      ReserveIsProduct(n - 1, most);
    }
  }

  lemma {:induction false} ReserveMonotone(m: nat, n: nat, most: real)
    requires m <= n && most >= 0.0
    ensures 0.0 <= Reserve(m, most) <= Reserve(n, most)
    decreases n
  {
    if m < n {
      ReserveMonotone(m, n - 1, most);
    } else if n > 0 {
      ReserveMonotone(m - 1, n - 1, most);
    }
  }

  lemma {:induction false} LeavingFlight(requests: seq<Request>, i: nat, budget: Budget)
    requires i < |requests|
    ensures InFlightFor(requests, budget) == InFlightFor(Without(requests, i), budget)
              + if Covers(budget, requests[i].providers, requests[i].tier) then 1 else 0
    decreases i
  {
    if i > 0 {
      LeavingFlight(requests[1..], i - 1, budget);
      assert Without(requests, i) == [requests[0]] + Without(requests[1..], i - 1);
    } else {
      assert Without(requests, 0) == requests[1..];
    }
  }

  /** What was spent plus what the requests in flight may still cost. */
  function Exposure(w: World, budget: Budget, most: real): real {
    Total(w.log, budget, w.clock) + Reserve(InFlightFor(w.inFlight, budget), most)
  }

  lemma AdmissionIsBelowLimit(w: World, m: Move, budgets: seq<Budget>, budget: Budget, room: nat, most: real)
    requires Sane(w) && m.Admit? && Possible(w, m, budgets, room, most) && most >= 0.0
    requires budget in budgets && budget.enabled && budget.onExceeded.Reject? && Barless(budget.scope)
    requires Exposure(w, budget, most) < budget.limit + Reserve(room, most)
    ensures Exposure(Next(w, m), budget, most) < budget.limit + Reserve(room, most)
  {
    var r, at := m.request, m.at;
    StaysSane(w, m, budgets, room, most);
    TotalOverTime(w.log, budget, w.clock, at);
    assert ([r] + w.inFlight)[1..] == w.inFlight;
    if Covers(budget, r.providers, r.tier) {
      RejectionOutranksDegrade(budgets, Replay(w.log), Query(at, r.providers, r.tier), None);
      LedgerCountsCharges(w.log, budget, at);
      ReserveMonotone(InFlightFor([r] + w.inFlight, budget), room, most);
    }
  }

  lemma SettlingUsesTheReserve(w: World, m: Move, budgets: seq<Budget>, budget: Budget, room: nat, most: real)
    requires Sane(w) && m.Settle? && Possible(w, m, budgets, room, most) && most >= 0.0
    ensures Exposure(Next(w, m), budget, most) <= Exposure(w, budget, most)
  {
    var r := w.inFlight[m.index];
    var c := Charge(m.at, m.provider, r.tier, m.currency, m.amount);
    var left, held := InFlightFor(Without(w.inFlight, m.index), budget), InFlightFor(w.inFlight, budget);
    assert Total(w.log + [Spending(c)], budget, m.at) <= Total(w.log, budget, w.clock) + Share(c, budget, m.at) by {
      TotalOverTime(w.log, budget, w.clock, m.at);
    }
    assert Share(c, budget, m.at) <= Reserve(held, most) - Reserve(left, most) by {
      LeavingFlight(w.inFlight, m.index, budget);
      assert InScope(budget.scope, c) ==> Covers(budget, r.providers, r.tier);
    }
  }

  lemma OtherMovesAddNothing(w: World, m: Move, budgets: seq<Budget>, budget: Budget, room: nat, most: real)
    requires Sane(w) && (m.Abandon? || m.Tidy?) && Possible(w, m, budgets, room, most) && most >= 0.0
    ensures Exposure(Next(w, m), budget, most) <= Exposure(w, budget, most)
  {
    if m.Abandon? {
      LeavingFlight(w.inFlight, m.index, budget);
      ReserveMonotone(InFlightFor(Without(w.inFlight, m.index), budget), InFlightFor(w.inFlight, budget), most);
    } else {
      TotalOverTime(w.log, budget, w.clock, m.at);
    }
  }

  lemma {:induction false} ExposureStaysBounded(w: World, moves: seq<Move>, end: World, budgets: seq<Budget>, budget: Budget, room: nat, most: real)
    requires Sane(w) && Run(w, moves, end, budgets, room, most) && most >= 0.0
    requires budget in budgets && budget.enabled && budget.onExceeded.Reject? && Barless(budget.scope)
    requires Exposure(w, budget, most) < budget.limit + Reserve(room, most)
    ensures Sane(end) && Exposure(end, budget, most) < budget.limit + Reserve(room, most)
    decreases moves
  {
    if moves != [] {
      var m := moves[0];
      StaysSane(w, m, budgets, room, most);
      if m.Admit? {
        AdmissionIsBelowLimit(w, m, budgets, budget, room, most);
      } else if m.Settle? {
        SettlingUsesTheReserve(w, m, budgets, budget, room, most);
      } else {
        OtherMovesAddNothing(w, m, budgets, budget, room, most);
      }
      ExposureStaysBounded(Next(w, m), moves[1..], end, budgets, budget, room, most);
    }
  }

  /** In every run that starts with an empty ledger, a rejecting budget is passed by less than the cost of the
      requests that may be in flight for it: with room for one, by less than one request. */
  lemma OvershootIsBounded(start: Date, moves: seq<Move>, end: World, budgets: seq<Budget>, budget: Budget, room: nat, most: real, at: Date)
    requires Recent(start) && Run(World([], [], start), moves, end, budgets, room, most) && most >= 0.0
    requires budget in budgets && budget.enabled && budget.onExceeded.Reject? && Barless(budget.scope) && budget.limit > 0.0
    requires Recent(at) && NotAfter(end.clock, at)
    ensures Orderly(end.log) && Spent(Replay(end.log), budget, at) < budget.limit + room as real * most
  {
    var w := World([], [], start);
    ReserveMonotone(0, room, most);
    ExposureStaysBounded(w, moves, end, budgets, budget, room, most);
    ReserveMonotone(0, InFlightFor(end.inFlight, budget), most);
    ReserveIsProduct(room, most);
    TotalOverTime(end.log, budget, end.clock, at);
    forall i | 0 <= i < |end.log|
      ensures NotAfter(When(end.log[i]), at)
    {
    }
    LedgerCountsCharges(end.log, budget, at);
  }
}
