/** The flat keys of the ledger: which buckets they tell apart, and exactly which they cannot. */
module LedgerKeys {
  import opened Budget
  import opened Calendar
  import opened Text
  import opened Wrappers

  // ---- parts and separators -------------------------------------------------------------------------------

  function Joined(a: string, b: string): string {
    a + ("|" + b)
  }

  /** What stands before the first separator, or everything. */
  function First(s: string): string {
    s[..IndexOf(s, '|')]
  }

  lemma JoinedAssociates(a: string, b: string, c: string)
    ensures Joined(Joined(a, b), c) == Joined(a, Joined(b, c))
  {
  }

  lemma FlatIsJoined(scope: string, period: string, currency: string)
    ensures Flat(scope, period, currency) == Joined(scope, Joined(period, currency))
  {
  }

  /** A part without separators and what follows it can be read off. */
  lemma JoinedCut(a: string, b: string)
    requires '|' !in a
    ensures IndexOf(Joined(a, b), '|') == |a| && Joined(a, b)[..|a|] == a && Joined(a, b)[|a| + 1..] == b
  {
    IndexOfConcat(a, "|" + b, '|');
  }

  lemma JoinedInjective(a: string, b: string, c: string, d: string)
    requires '|' !in a && '|' !in c && Joined(a, b) == Joined(c, d)
    ensures a == c && b == d
  {
    JoinedCut(a, b);
    JoinedCut(c, d);
  }

  lemma JoinedSameFront(a: string, b: string, d: string)
    requires Joined(a, b) == Joined(a, d)
    ensures b == d
  {
    assert Joined(a, b)[|a| + 1..] == b && Joined(a, d)[|a| + 1..] == d;
  }

  lemma JoinedSameEnd(a: string, x: string, b: string, y: string)
    requires '|' !in x && '|' !in y && Joined(a, x) == Joined(b, y)
    ensures a == b && x == y
  {
    var s := Joined(a, x);
    assert s[|a|] == '|' && s[|b|] == '|';
    assert forall i :: 0 <= i < |x| ==> s[|a| + 1 + i] == x[i];
    assert forall i :: 0 <= i < |y| ==> s[|b| + 1 + i] == y[i];
    assert s[..|a|] == a && s[..|b|] == b && s[|a| + 1..] == x && s[|b| + 1..] == y;
  }

  lemma Unjoin(s: string) returns (a: string, b: string)
    requires '|' in s
    ensures s == Joined(a, b) && '|' !in a
  {
    var n := IndexOf(s, '|');
    a, b := s[..n], s[n + 1..];
  }

  lemma SecondPartOfJoined(a: string, b: string)
    requires '|' !in a
    ensures SecondPart(Joined(a, b)) == Some(First(b))
  {
    JoinedCut(a, b);
  }

  lemma FirstOfJoined(a: string, b: string)
    ensures First(Joined(a, b)) == First(a) && ('|' !in a ==> First(a) == a)
  {
    IndexOfConcat(a, "|" + b, '|');
    var n := IndexOf(a, '|');
    assert Joined(a, b)[..n] == a[..n];
    assert a[..|a|] == a;
  }

  // ---- keys identify buckets ------------------------------------------------------------------------------

  /** Provider ids are free of the character that separates the parts of a key. */
  predicate Barless(scope: BudgetScope) {
    scope.Provider? ==> '|' !in scope.id
  }

  predicate SamePeriod(period: BudgetPeriod, a: Date, b: Date) {
    match period
    case Day => a == b
    case Month => a.year == b.year && a.month == b.month
  }

  lemma BarInScopeKey(scope: BudgetScope)
    ensures '|' in ScopeKey(scope) <==> !Barless(scope)
  {
  }

  lemma ScopeKeyInjective(a: BudgetScope, b: BudgetScope)
    requires ScopeKey(a) == ScopeKey(b)
    ensures a == b
  {
    assert ScopeKey(a)[0] == ScopeKey(b)[0];
    if a.Provider? {
      assert ScopeKey(a)[9..] == a.id && ScopeKey(b)[9..] == b.id;
    } else if a.ByTier? {
      assert ScopeKey(a)[5..] == TierName(a.tier) && ScopeKey(b)[5..] == TierName(b.tier);
      assert TierName(a.tier)[0] == TierName(b.tier)[0];
      assert TierName(a.tier)[1] == TierName(b.tier)[1];
    }
  }

  lemma PeriodKeyHasNoBar(period: BudgetPeriod, at: Date)
    requires Valid(at)
    ensures '|' !in PeriodKey(period, at)
  {
  }

  lemma PeriodKeyIdentifies(p: BudgetPeriod, a: Date, q: BudgetPeriod, b: Date)
    requires Valid(a) && Valid(b)
    ensures PeriodKey(p, a) == PeriodKey(q, b) <==> p == q && SamePeriod(p, a, b)
  {
    DayTextOrder(a, b);
    MonthTextOrder(a.year, a.month, b.year, b.month);
    assert p != q ==> |PeriodKey(p, a)| != |PeriodKey(q, b)|;
  }

  lemma KeyIsJoined(s: BudgetScope, p: BudgetPeriod, c: string, a: Date)
    requires Valid(a)
    ensures LedgerKey(s, p, c, a) == Joined(ScopeKey(s), Joined(PeriodKey(p, a), c)) && '|' !in PeriodKey(p, a)
  {
    FlatIsJoined(ScopeKey(s), PeriodKey(p, a), c);
    PeriodKeyHasNoBar(p, a);
  }

  /** Two keys are the same bucket exactly when scope, period and currency are. */
  lemma KeysIdentifyBuckets(s: BudgetScope, p: BudgetPeriod, c: string, a: Date, t: BudgetScope, q: BudgetPeriod, d: string, b: Date)
    requires Barless(s) && Barless(t) && Valid(a) && Valid(b)
    ensures LedgerKey(s, p, c, a) == LedgerKey(t, q, d, b) <==> s == t && p == q && c == d && SamePeriod(p, a, b)
  {
    PeriodKeyIdentifies(p, a, q, b);
    if LedgerKey(s, p, c, a) == LedgerKey(t, q, d, b) {
      KeyIsJoined(s, p, c, a);
      KeyIsJoined(t, q, d, b);
      BarInScopeKey(s);
      BarInScopeKey(t);
      JoinedInjective(ScopeKey(s), Joined(PeriodKey(p, a), c), ScopeKey(t), Joined(PeriodKey(q, b), d));
      JoinedInjective(PeriodKey(p, a), c, PeriodKey(q, b), d);
      ScopeKeyInjective(s, t);
    }
  }

  /** The same for any provider ids, as long as the currencies are free of the separator. */
  lemma PlainCurrenciesIdentifyBuckets(s: BudgetScope, p: BudgetPeriod, c: string, a: Date, t: BudgetScope, q: BudgetPeriod, d: string, b: Date)
    requires '|' !in c && '|' !in d && Valid(a) && Valid(b)
    ensures LedgerKey(s, p, c, a) == LedgerKey(t, q, d, b) <==> s == t && p == q && c == d && SamePeriod(p, a, b)
  {
    PeriodKeyIdentifies(p, a, q, b);
    if LedgerKey(s, p, c, a) == LedgerKey(t, q, d, b) {
      KeyIsJoined(s, p, c, a);
      KeyIsJoined(t, q, d, b);
      JoinedAssociates(ScopeKey(s), PeriodKey(p, a), c);
      JoinedAssociates(ScopeKey(t), PeriodKey(q, b), d);
      JoinedSameEnd(Joined(ScopeKey(s), PeriodKey(p, a)), c, Joined(ScopeKey(t), PeriodKey(q, b)), d);
      JoinedSameEnd(ScopeKey(s), PeriodKey(p, a), ScopeKey(t), PeriodKey(q, b));
      ScopeKeyInjective(s, t);
    }
  }

  /** Keys of one scope are never confused, whatever its id and the currencies are. */
  lemma OneScopeIdentifiesBuckets(s: BudgetScope, p: BudgetPeriod, c: string, a: Date, q: BudgetPeriod, d: string, b: Date)
    requires Valid(a) && Valid(b)
    ensures LedgerKey(s, p, c, a) == LedgerKey(s, q, d, b) <==> p == q && c == d && SamePeriod(p, a, b)
  {
    PeriodKeyIdentifies(p, a, q, b);
    if LedgerKey(s, p, c, a) == LedgerKey(s, q, d, b) {
      KeyIsJoined(s, p, c, a);
      KeyIsJoined(s, q, d, b);
      JoinedSameFront(ScopeKey(s), Joined(PeriodKey(p, a), c), Joined(PeriodKey(q, b), d));
      JoinedInjective(PeriodKey(p, a), c, PeriodKey(q, b), d);
    }
  }

  // ---- scopes that share a key ----------------------------------------------------------------------------

  /** Some buckets of the two scopes have one key. */
  ghost predicate CanShareKey(s: BudgetScope, t: BudgetScope) {
    exists p, c, a, q, d, b :: Valid(a) && Valid(b) && LedgerKey(s, p, c, a) == LedgerKey(t, q, d, b)
  }

  /** The second id is the first with a period attached, and possibly more behind another separator. */
  ghost predicate GoesOn(x: string, y: string) {
    exists p, a :: Valid(a) && Attached(x, PeriodKey(p, a), y)
  }

  ghost predicate Attached(x: string, period: string, y: string) {
    y == Joined(x, period) || exists more :: y == Joined(x, Joined(period, more))
  }

  /** A longer front of the same text goes on behind the shorter one. */
  lemma LongerFront(x: string, u: string, y: string, v: string) returns (w: string)
    requires |x| < |y| && Joined(x, u) == Joined(y, v)
    ensures y == Joined(x, w) && u == Joined(w, v)
  {
    var s := Joined(x, u);
    w := y[|x| + 1..];
    assert s[|x|] == '|' && s[..|y|] == y;
    assert y[|x|] == '|' && y[..|x|] == s[..|x|] == x;
    JoinedAssociates(x, w, v);
    JoinedSameFront(x, u, Joined(w, v));
  }

  lemma ProvidersShareKey(x: string, p: BudgetPeriod, c: string, a: Date, y: string, v: string)
    requires |x| < |y| && Valid(a)
    requires Joined(x, Joined(PeriodKey(p, a), c)) == Joined(y, v)
    ensures GoesOn(x, y)
  {
    var period := PeriodKey(p, a);
    PeriodKeyHasNoBar(p, a);
    var w := LongerFront(x, Joined(period, c), y, v);
    if '|' in w {
      var first, more := Unjoin(w);
      JoinedAssociates(first, more, v);
      JoinedInjective(period, c, first, Joined(more, v));
      assert y == Joined(x, Joined(period, more));
    } else {
      JoinedInjective(period, c, w, v);
    }
    assert Attached(x, period, y);
  }

  lemma GoingOnSharesKey(x: string, y: string)
    requires GoesOn(x, y)
    ensures CanShareKey(Provider(x), Provider(y))
  {
    var p, a :| Valid(a) && Attached(x, PeriodKey(p, a), y);
    var period, rest, front := PeriodKey(p, a), Joined(DayText(a), "USD"), ScopeKey(Provider(x));
    KeyIsJoined(Provider(y), Day, "USD", a);
    if y == Joined(x, period) {
      ProviderKeyOf(x, period);
      JoinedAssociates(front, period, rest);
      KeyIsJoined(Provider(x), p, rest, a);
      assert LedgerKey(Provider(x), p, rest, a) == LedgerKey(Provider(y), Day, "USD", a);
    } else {
      var more :| y == Joined(x, Joined(period, more));
      ProviderKeyOf(x, Joined(period, more));
      JoinedAssociates(front, Joined(period, more), rest);
      JoinedAssociates(period, more, rest);
      KeyIsJoined(Provider(x), p, Joined(more, rest), a);
      assert LedgerKey(Provider(x), p, Joined(more, rest), a) == LedgerKey(Provider(y), Day, "USD", a);
    }
  }

  lemma ProviderKeyOf(x: string, more: string)
    ensures ScopeKey(Provider(Joined(x, more))) == Joined(ScopeKey(Provider(x)), more)
  {
  }

  lemma SharingKeysGoOn(x: string, p: BudgetPeriod, c: string, a: Date, y: string, q: BudgetPeriod, d: string, b: Date)
    requires |x| <= |y| && x != y && Valid(a) && Valid(b)
    requires LedgerKey(Provider(x), p, c, a) == LedgerKey(Provider(y), q, d, b)
    ensures GoesOn(x, y)
  {
    var u, v := Joined(PeriodKey(p, a), c), Joined(PeriodKey(q, b), d);
    KeyIsJoined(Provider(x), p, c, a);
    KeyIsJoined(Provider(y), q, d, b);
    BehindPrefix("provider:", x, u);
    BehindPrefix("provider:", y, v);
    SameLengthFront(x, u, y, v);
    ProvidersShareKey(x, p, c, a, y, v);
  }

  lemma SameLengthFront(x: string, u: string, y: string, v: string)
    requires Joined(x, u) == Joined(y, v)
    ensures |x| == |y| ==> x == y
  {
    assert Joined(x, u)[..|x|] == x && Joined(y, v)[..|y|] == y;
  }

  lemma BehindPrefix(prefix: string, x: string, u: string)
    ensures Joined(prefix + x, u)[|prefix|..] == Joined(x, u)
  {
  }

  lemma KindsOfScopesDiffer(s: BudgetScope, p: BudgetPeriod, c: string, a: Date, t: BudgetScope, q: BudgetPeriod, d: string, b: Date)
    requires Valid(a) && Valid(b) && LedgerKey(s, p, c, a) == LedgerKey(t, q, d, b)
    ensures s.Provider? <==> t.Provider?
  {
    assert LedgerKey(s, p, c, a)[0] == ScopeKey(s)[0] && LedgerKey(t, q, d, b)[0] == ScopeKey(t)[0];
  }

  /** Two different scopes can share a key exactly when both are providers and one id goes on as the other's key does,
      with a separator and a period. */
  lemma ScopesShareKeyExactly(s: BudgetScope, t: BudgetScope)
    requires s != t
    ensures CanShareKey(s, t) <==> s.Provider? && t.Provider? && (GoesOn(s.id, t.id) || GoesOn(t.id, s.id))
  {
    if CanShareKey(s, t) {
      var p, c, a, q, d, b :| Valid(a) && Valid(b) && LedgerKey(s, p, c, a) == LedgerKey(t, q, d, b);
      KindsOfScopesDiffer(s, p, c, a, t, q, d, b);
      if !s.Provider? {
        KeysIdentifyBuckets(s, p, c, a, t, q, d, b);
      } else if |s.id| <= |t.id| {
        SharingKeysGoOn(s.id, p, c, a, t.id, q, d, b);
      } else {
        SharingKeysGoOn(t.id, q, d, b, s.id, p, c, a);
      }
    }
    if s.Provider? && t.Provider? && GoesOn(s.id, t.id) {
      GoingOnSharesKey(s.id, t.id);
    }
    if s.Provider? && t.Provider? && GoesOn(t.id, s.id) {
      GoingOnSharesKey(t.id, s.id);
      var p, c, a, q, d, b :| Valid(a) && Valid(b) && LedgerKey(t, p, c, a) == LedgerKey(s, q, d, b);
      assert LedgerKey(s, q, d, b) == LedgerKey(t, p, c, a);
    }
  }

  /** An id and the same id with a month attached share a key. */
  lemma KeysCanCollide(id: string, at: Date)
    requires Valid(at)
    ensures CanShareKey(Provider(id), Provider(Joined(id, MonthText(at.year, at.month))))
  {
    var longer := Joined(id, MonthText(at.year, at.month));
    assert Attached(id, PeriodKey(Month, at), longer);
    ScopesShareKeyExactly(Provider(id), Provider(longer));
  }
}
