/** Which budgets the check looks at: those that a charge of the very request would raise. */
module BudgetCoverage {
  import opened Budget
  import opened BudgetRuns
  import opened Calendar
  import opened LedgerKeys
  import opened Wrappers

  /** What the request would be charged if `provider` served it. */
  function ChargeOf(q: Query, provider: string, currency: string, amount: real): Charge {
    Charge(q.at, provider, q.tier, currency, amount)
  }

  /** A budget covers a request exactly when a charge of the request, on one of its providers, falls in its scope. */
  lemma CoversExactly(budget: Budget, q: Query, currency: string, amount: real)
    requires q.providers != []
    ensures Covers(budget, q.providers, q.tier) <==>
            exists p :: p in q.providers && InScope(budget.scope, ChargeOf(q, p, currency, amount))
  {
    assert q.providers[0] in q.providers;
    if Covers(budget, q.providers, q.tier) {
      var p := if budget.scope.Provider? then budget.scope.id else q.providers[0];
      assert p in q.providers && InScope(budget.scope, ChargeOf(q, p, currency, amount));
    }
  }

  /** Some charge of this request raises what the budget reads now. */
  ghost predicate WouldRaise(budget: Budget, entries: Entries, q: Query)
    requires Valid(q.at)
  {
    exists p :: p in q.providers &&
      Spent(Charged(entries, q.at, p, q.tier, budget.currency, 1.0), budget, q.at) > Spent(entries, budget, q.at)
  }

  lemma CoveredIsRaised(budget: Budget, entries: Entries, q: Query)
    requires Valid(q.at) && q.providers != [] && Barless(budget.scope) && forall p :: p in q.providers ==> '|' !in p
    ensures Covers(budget, q.providers, q.tier) <==> WouldRaise(budget, entries, q)
  {
    CoversExactly(budget, q, budget.currency, 1.0);
    forall p | p in q.providers
      ensures Spent(Charged(entries, q.at, p, q.tier, budget.currency, 1.0), budget, q.at) > Spent(entries, budget, q.at) <==>
              InScope(budget.scope, ChargeOf(q, p, budget.currency, 1.0))
    {
      ChargeCounts(entries, ChargeOf(q, p, budget.currency, 1.0), budget, q.at);
      SamePeriodAsItself(budget.period, q.at);
    }
  }

  lemma SamePeriodAsItself(period: BudgetPeriod, at: Date)
    ensures SamePeriod(period, at, at)
  {
  }

  /** An enabled budget that this request would count towards and that has nothing left. */
  ghost predicate UsedUp(budget: Budget, entries: Entries, q: Query)
    requires Valid(q.at)
  {
    budget.enabled && WouldRaise(budget, entries, q) && Spent(entries, budget, q.at) >= budget.limit
  }

  /** The check refuses exactly when a rejecting budget of this request is used up, allows exactly when none is, and
      names a budget of this request otherwise. */
  lemma CheckAnswersForTheRequest(budgets: seq<Budget>, entries: Entries, q: Query)
    requires Valid(q.at) && q.providers != [] && forall p :: p in q.providers ==> '|' !in p
    requires forall b :: b in budgets ==> Barless(b.scope)
    ensures var verdict := Decide(budgets, entries, q, None);
            && (verdict.Allow? <==> forall b :: b in budgets ==> !UsedUp(b, entries, q))
            && (verdict.Refuse? <==> exists b :: b in budgets && UsedUp(b, entries, q) && b.onExceeded.Reject?)
            && (!verdict.Allow? ==> verdict.because in budgets && UsedUp(verdict.because, entries, q))
            && (verdict.Refuse? ==> verdict.because.onExceeded.Reject?)
            && (verdict.DegradeTo? ==> verdict.because.onExceeded == Degrade(verdict.to))
  {
    RejectionOutranksDegrade(budgets, entries, q, None);
    forall b | b in budgets
      ensures Exceeded(b, entries, q.at, q.providers, q.tier) <==> UsedUp(b, entries, q)
    {
      CoveredIsRaised(b, entries, q);
    }
  }

  /** After any run of charges and prunes in time order, the check answers for what was charged to its budgets. */
  lemma CheckFollowsHistory(events: seq<Event>, budgets: seq<Budget>, q: Query)
    requires Orderly(events) && Past(events, q.at) && Valid(q.at) && q.providers != []
    requires (forall p :: p in q.providers ==> '|' !in p) && forall b :: b in budgets ==> Barless(b.scope)
    ensures var verdict := Decide(budgets, Replay(events), q, None);
            && (verdict.Allow? <==>
                  forall b :: b in budgets && b.enabled && WouldRaise(b, Replay(events), q) ==> Total(events, b, q.at) < b.limit)
            && (verdict.Refuse? <==>
                  exists b :: b in budgets && b.enabled && WouldRaise(b, Replay(events), q) && b.onExceeded.Reject?
                              && Total(events, b, q.at) >= b.limit)
  {
    CheckAnswersForTheRequest(budgets, Replay(events), q);
    forall b | b in budgets
      ensures Spent(Replay(events), b, q.at) == Total(events, b, q.at)
    {
      LedgerCountsCharges(events, b, q.at);
    }
  }

  /** A request without providers is covered by the global budgets and by those of its tier. */
  lemma CoversWithoutProviders(budget: Budget, q: Query)
    requires q.providers == []
    ensures Covers(budget, q.providers, q.tier) <==>
            budget.scope == Global || (q.tier.Some? && budget.scope == ByTier(q.tier.value))
  {
  }
}
