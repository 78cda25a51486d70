/** Exactly which buckets the pruning of the ledger keeps. */
module LedgerPruning {
  import opened Budget
  import opened Calendar
  import opened DayNumbers
  import opened LedgerKeys
  import opened TextOrder

  /** A bucket stays exactly when its day is at most forty days back, or its month at most thirteen months. */
  lemma RetainedExactly(scope: BudgetScope, period: BudgetPeriod, currency: string, pruned: Date, at: Date)
    requires Barless(scope) && Recent(pruned) && Valid(at)
    ensures Retained(LedgerKey(scope, period, currency, at), pruned) <==>
            match period
            case Day => DayNumber(at) + 40 >= DayNumber(pruned)
            case Month => MonthIndex(at) + 13 >= MonthIndex(pruned)
  {
    PeriodIsRead(scope, period, currency, pruned, at);
    DashesTellPeriods(at);
    match period {
      case Day => DayCutoff(pruned, at);
      case Month => MonthCutoffOrder(pruned, at);
    }
  }

  lemma PeriodIsRead(scope: BudgetScope, period: BudgetPeriod, currency: string, pruned: Date, at: Date)
    requires Barless(scope) && Recent(pruned) && Valid(at)
    ensures Retained(LedgerKey(scope, period, currency, at), pruned) <==> RetainedPeriod(PeriodKey(period, at), pruned)
  {
    BarInScopeKey(scope);
    KeyIsJoined(scope, period, currency, at);
    SecondPartOfJoined(ScopeKey(scope), Joined(PeriodKey(period, at), currency));
    FirstOfJoined(PeriodKey(period, at), currency);
  }

  lemma DayCutoff(pruned: Date, at: Date)
    requires Recent(pruned) && Valid(at)
    ensures TextLe(DayText(MinusDays(pruned, 40)), DayText(at)) <==> DayNumber(at) + 40 >= DayNumber(pruned)
  {
    var cutoff := MinusDays(pruned, 40);
    DayTextOrder(cutoff, at);
    NumbersFollowDates(cutoff, at);
    GoingBack(pruned, 40);
  }

  lemma MonthCutoffOrder(pruned: Date, at: Date)
    requires Recent(pruned) && Valid(at)
    ensures TextLe(MonthCutoff(pruned), MonthText(at.year, at.month)) <==> MonthIndex(at) + 13 >= MonthIndex(pruned)
  {
    var months := MonthIndex(pruned) - 13;
    var year, month := months / 12, months % 12 + 1;
    assert MonthCutoff(pruned) == MonthText(year, month);
    MonthTextOrder(year, month, at.year, at.month);
    MonthNumbers(months, at.year, at.month - 1);
  }

  lemma MonthNumbers(months: nat, year: nat, month: nat)
    requires month < 12
    ensures months / 12 < year || (months / 12 == year && months % 12 <= month) <==> months <= year * 12 + month
  {
  }
}
