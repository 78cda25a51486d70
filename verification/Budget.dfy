/** Spending limits: the ledger of what was spent, and the check before a request. Amounts are exact. */
module Budget {
  import opened Calendar
  import opened Text
  import opened TextOrder
  import opened Tiers
  import opened Wrappers

  datatype BudgetScope = Global | Provider(id: string) | ByTier(tier: Tier)

  datatype BudgetPeriod = Day | Month

  datatype OnExceeded = Reject | Degrade(to: Tier)

  datatype Budget = Budget(
    id: string,
    scope: BudgetScope,
    period: BudgetPeriod,
    currency: string,
    limit: real,
    onExceeded: OnExceeded,
    enabled: bool)

  // ---- keys -----------------------------------------------------------------------------------------------

  function TierName(tier: Tier): string {
    match tier
    case Fast => "fast"
    case Standard => "standard"
    case Reasoning => "reasoning"
    case Frontier => "frontier"
  }

  function ScopeKey(scope: BudgetScope): string {
    match scope
    case Global => "global"
    case Provider(id) => "provider:" + id
    case ByTier(tier) => "tier:" + TierName(tier)
  }

  function PeriodKey(period: BudgetPeriod, at: Date): string
    requires Valid(at)
  {
    match period
    case Day => DayText(at)
    case Month => MonthText(at.year, at.month)
  }

  function Flat(scope: string, period: string, currency: string): string {
    scope + "|" + period + "|" + currency
  }

  function LedgerKey(scope: BudgetScope, period: BudgetPeriod, currency: string, at: Date): string
    requires Valid(at)
  {
    Flat(ScopeKey(scope), PeriodKey(period, at), currency)
  }

  // ---- the ledger -----------------------------------------------------------------------------------------

  type Entries = map<string, real>

  function Amount(entries: Entries, key: string): real {
    if key in entries then entries[key] else 0.0
  }

  function Add(entries: Entries, key: string, amount: real): Entries {
    entries[key := Amount(entries, key) + amount]
  }

  function AddAll(entries: Entries, keys: seq<string>, amount: real): Entries
    decreases keys
  {
    if keys == [] then entries else AddAll(Add(entries, keys[0], amount), keys[1..], amount)
  }

  function Scopes(provider: string, tier: Option<Tier>): seq<BudgetScope> {
    [Global, Provider(provider)] + if tier.Some? then [ByTier(tier.value)] else []
  }

  const PERIODS := [Day, Month]

  /** A day and a month bucket for everything the request counts towards. */
  function ChargeKeys(scopes: seq<BudgetScope>, currency: string, at: Date): (keys: seq<string>)
    requires Valid(at)
    decreases scopes
  {
    if scopes == [] then []
    else
      [LedgerKey(scopes[0], Day, currency, at), LedgerKey(scopes[0], Month, currency, at)]
      + ChargeKeys(scopes[1..], currency, at)
  }

  function Charged(entries: Entries, at: Date, provider: string, tier: Option<Tier>, currency: string, amount: real): Entries
    requires Valid(at)
  {
    AddAll(entries, ChargeKeys(Scopes(provider, tier), currency, at), amount)
  }

  function Spent(entries: Entries, budget: Budget, at: Date): real
    requires Valid(at)
  {
    Amount(entries, LedgerKey(budget.scope, budget.period, budget.currency, at))
  }

  /** The second of the parts a `|` separates. */
  function SecondPart(key: string): Option<string> {
    var n := IndexOf(key, '|');
    if n == |key| then None
    else
      var rest := key[n + 1..];
      Some(rest[..IndexOf(rest, '|')])
  }

  function MonthCutoff(at: Date): string
    requires Recent(at)
  {
    var months := MonthIndex(at) - 13;
    MonthText(months / 12, months % 12 + 1)
  }

  predicate RetainedPeriod(period: string, at: Date)
    requires Recent(at)
  {
    if Dashes(period) == 2 then TextLe(DayText(MinusDays(at, 40)), period) else TextLe(MonthCutoff(at), period)
  }

  predicate Retained(key: string, at: Date)
    requires Recent(at)
  {
    match SecondPart(key)
    case None => false
    case Some(period) => RetainedPeriod(period, at)
  }

  function Pruned(entries: Entries, at: Date): Entries
    requires Recent(at)
  {
    map key | key in entries && Retained(key, at) :: entries[key]
  }

  /** The ledger object. */
  class Ledger {
    var entries: Entries

    constructor ()
      ensures entries == map[]
    {
      entries := map[];
    }

    method Charge(at: Date, provider: string, tier: Option<Tier>, currency: string, amount: real)
      requires Valid(at)
      modifies this
      ensures entries == Charged(old(entries), at, provider, tier, currency, amount)
    {
      var scopes := [Global, Provider(provider)];
      if tier.Some? {
        scopes := scopes + [ByTier(tier.value)];
      }
      assert scopes == Scopes(provider, tier);
      for i := 0 to |scopes|
        invariant AddAll(entries, ChargeKeys(scopes[i..], currency, at), amount) ==
                  AddAll(old(entries), ChargeKeys(scopes, currency, at), amount)
      {
        assert scopes[i..][1..] == scopes[i + 1..];
        var day, month := LedgerKey(scopes[i], Day, currency, at), LedgerKey(scopes[i], Month, currency, at);
        AddTwo(entries, day, month, ChargeKeys(scopes[i + 1..], currency, at), amount);
        entries := Add(entries, day, amount);
        entries := Add(entries, month, amount);
      }
    }

    method Prune(at: Date)
      requires Recent(at)
      modifies this
      ensures entries == Pruned(old(entries), at)
    {
      entries := map key | key in entries && Retained(key, at) :: entries[key];
    }
  }

  lemma AddTwo(entries: Entries, a: string, b: string, rest: seq<string>, amount: real)
    ensures AddAll(entries, [a, b] + rest, amount) == AddAll(Add(Add(entries, a, amount), b, amount), rest, amount)
  {
  }

  // ---- the check ------------------------------------------------------------------------------------------

  datatype Verdict = Allow | DegradeTo(to: Tier, because: Budget) | Refuse(because: Budget)

  predicate Covers(budget: Budget, providers: seq<string>, tier: Option<Tier>) {
    match budget.scope
    case Global => true
    case Provider(id) => id in providers
    case ByTier(t) => tier == Some(t)
  }

  /** An enabled budget that covers the request and is used up. */
  predicate Exceeded(budget: Budget, entries: Entries, at: Date, providers: seq<string>, tier: Option<Tier>)
    requires Valid(at)
  {
    budget.enabled && Covers(budget, providers, tier) && Spent(entries, budget, at) >= budget.limit
  }

  /** What a request looks like to the budgets. */
  datatype Query = Query(at: Date, providers: seq<string>, tier: Option<Tier>)

  function Decide(budgets: seq<Budget>, entries: Entries, q: Query, pending: Option<Verdict>): Verdict
    requires Valid(q.at)
    decreases budgets
  {
    if budgets == [] then
      pending.GetOr(Allow)
    else
      var b := budgets[0];
      if !Exceeded(b, entries, q.at, q.providers, q.tier) then
        Decide(budgets[1..], entries, q, pending)
      else
        match b.onExceeded
        case Reject => Refuse(b)
        case Degrade(to) => Decide(budgets[1..], entries, q, if pending.Some? then pending else Some(DegradeTo(to, b)))
  }

  method Check(budgets: seq<Budget>, entries: Entries, at: Date, providers: seq<string>, tier: Option<Tier>)
    returns (verdict: Verdict)
    requires Valid(at)
    ensures verdict == Decide(budgets, entries, Query(at, providers, tier), None)
  {
    var degrade: Option<Verdict> := None;
    ghost var q := Query(at, providers, tier);
    for i := 0 to |budgets|
      invariant Decide(budgets, entries, q, None) == Decide(budgets[i..], entries, q, degrade)
    {
      assert budgets[i..][1..] == budgets[i + 1..];
      var budget := budgets[i];
      if !budget.enabled || !Covers(budget, providers, tier) || Spent(entries, budget, at) < budget.limit {
        continue;
      }
      match budget.onExceeded
      case Reject => return Refuse(budget);
      case Degrade(to) =>
        if degrade.None? {
          degrade := Some(DegradeTo(to, budget));
        }
    }
    verdict := degrade.GetOr(Allow);
  }

  /** The first budget that is exceeded, or the first that is exceeded and rejects. */
  function FirstExceeded(budgets: seq<Budget>, entries: Entries, q: Query, rejecting: bool): (first: Option<Budget>)
    requires Valid(q.at)
    ensures first.Some? ==>
              && first.value in budgets && Exceeded(first.value, entries, q.at, q.providers, q.tier)
              && (rejecting ==> first.value.onExceeded.Reject?)
    ensures first.None? ==> forall b :: b in budgets && (rejecting ==> b.onExceeded.Reject?) ==>
              !Exceeded(b, entries, q.at, q.providers, q.tier)
    decreases budgets
  {
    if budgets == [] then None
    else if Exceeded(budgets[0], entries, q.at, q.providers, q.tier) && (rejecting ==> budgets[0].onExceeded.Reject?)
    then Some(budgets[0])
    else FirstExceeded(budgets[1..], entries, q, rejecting)
  }

  /** A rejection outranks a degrade wherever it stands in the list; among equals the first one counts, and a
      request is allowed exactly when nothing that covers it is used up. */
  lemma {:induction false} RejectionOutranksDegrade(budgets: seq<Budget>, entries: Entries, q: Query, pending: Option<Verdict>)
    requires Valid(q.at)
    ensures Decide(budgets, entries, q, pending) ==
            if FirstExceeded(budgets, entries, q, true).Some? then Refuse(FirstExceeded(budgets, entries, q, true).value)
            else if pending.Some? then pending.value
            else if FirstExceeded(budgets, entries, q, false).None? then Allow
            else
              var b := FirstExceeded(budgets, entries, q, false).value;
              DegradeTo(b.onExceeded.to, b)
    decreases budgets
  {
    if budgets != [] {
      var b := budgets[0];
      if !Exceeded(b, entries, q.at, q.providers, q.tier) {
        RejectionOutranksDegrade(budgets[1..], entries, q, pending);
      } else if b.onExceeded.Degrade? {
        RejectionOutranksDegrade(budgets[1..], entries, q, if pending.Some? then pending else Some(DegradeTo(b.onExceeded.to, b)));
      }
    }
  }
}
