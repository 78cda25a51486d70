/** An imported entry is recognised again, whatever is added later; where two entries can be confused. */
module CcSwitchLaws {
  import opened CcSwitch
  import opened Config
  import opened Tiers
  import opened Text
  import opened Wrappers

  // ---- the marker in an id --------------------------------------------------------------------------------

  function Power16(width: nat): nat {
    if width == 0 then 1 else 16 * Power16(width - 1)
  }

  lemma {:induction false} HexTextValue(n: nat, width: nat)
    requires n < Power16(width)
    ensures HexValue(HexText(n, width)) == Some(n)
    decreases width
  {
    if width > 0 {
      var s := HexText(n, width);
      assert s[..width - 1] == HexText(n / 16, width - 1);
      HexTextValue(n / 16, width - 1);
    }
  }

  /** Printing a 24-bit marker in six digits and reading it back undo each other. */
  lemma MarkerTextRoundTrip(n: nat)
    requires n < 0x100_0000
    ensures ParseHex(HexText(n, 6)) == Some(n)
  {
    assert Power16(6) == 0x100_0000 by {
      assert Power16(1) == 16;
      assert Power16(2) == 0x100;
      assert Power16(3) == 0x1000;
      assert Power16(4) == 0x1_0000;
      assert Power16(5) == 0x10_0000;
    }
    HexTextValue(n, 6);
    assert HexText(n, 6)[0] in HexText(n, 6);
  }

  lemma {:induction false} LastPartAfter(front: string, suffix: string)
    requires '-' !in suffix
    ensures LastPart(front + "-" + suffix) == Some(suffix)
    decreases |suffix|
  {
    var s := front + "-" + suffix;
    var n := |suffix| - 1;
    if suffix != [] {
      assert s[|s| - 1] == suffix[n];
      assert s[..|s| - 1] == front + "-" + suffix[..n];
      LastPartAfter(front, suffix[..n]);
      assert suffix == suffix[..n] + [suffix[n]];
    }
  }

  /** The id a source entry gets carries its marker, whatever the entry is called. */
  lemma TargetCarriesMarker(name: string, sourceId: seq<Byte>, lower: string -> string)
    ensures MarkerIn(SourceTargetId(name, sourceId, lower)) == Some(Marker(sourceId))
  {
    LastPartAfter(BaseId(name, lower), HexText(Marker(sourceId), 6));
    MarkerTextRoundTrip(Marker(sourceId));
  }

  // ---- recognition ----------------------------------------------------------------------------------------

  predicate Carries(p: Provider, account: SourceAccount) {
    MarkerIn(p.id) == Some(Marker(account.sourceId))
  }

  lemma {:induction false} MarkerFound(providers: seq<Provider>, account: SourceAccount)
    ensures MatchingMarker(providers, account).Some? <==> exists p :: p in providers && Carries(p, account)
    decreases providers
  {
    if providers != [] {
      MarkerFound(providers[1..], account);
      assert providers == [providers[0]] + providers[1..];
      assert providers[0] in providers;
      assert forall p :: p in providers[1..] ==> p in providers;
    }
  }

  lemma {:induction false} AccountFound(providers: seq<Provider>, account: SourceAccount, fingerprints: map<string, string>)
    ensures MatchingAccount(providers, account, fingerprints).Some? <==> exists p :: p in providers && IsAccount(p, account, fingerprints)
    decreases providers
  {
    if providers != [] {
      AccountFound(providers[1..], account, fingerprints);
      assert providers == [providers[0]] + providers[1..];
      assert providers[0] in providers;
      assert forall p :: p in providers[1..] ==> p in providers;
    }
  }

  /** Adding providers, in any place, never makes a recognised entry importable again. */
  lemma RecognitionStays(before: seq<Provider>, after: seq<Provider>, account: SourceAccount, fingerprints: map<string, string>, lower: string -> string)
    requires forall p :: p in before ==> p in after
    ensures var d, e := Decide(before, account, fingerprints, lower), Decide(after, account, fingerprints, lower);
            && (d.AlreadyImported? ==> e.AlreadyImported?)
            && (d.AlreadyImported? && d.because.SameSource? ==> e.because.SameSource?)
  {
    MarkerFound(before, account);
    MarkerFound(after, account);
    AccountFound(before, account, fingerprints);
    AccountFound(after, account, fingerprints);
  }

  lemma {:induction false} PlannedIsAdded(accounts: seq<SourceAccount>, plan: seq<Decision>, i: nat)
    requires |plan| == |accounts| && i < |accounts| && plan[i].Planned?
    ensures exists p :: p in NewProviders(accounts, plan) && p.id == plan[i].id
                        && SameAddress(p.baseUrl, accounts[i].baseUrl) && p.keyRef == "provider:" + p.id
    decreases accounts
  {
    var rest := NewProviders(accounts[1..], plan[1..]);
    if i == 0 {
      var p := NewProviders(accounts, plan)[0];
      var n := SlashesCutOff(accounts[0].baseUrl);
      assert Slashes(0) == [] && p.baseUrl == p.baseUrl + Slashes(0) && accounts[0].baseUrl == p.baseUrl + Slashes(n);
      assert p in NewProviders(accounts, plan) && p.id == plan[0].id;
    } else {
      PlannedIsAdded(accounts[1..], plan[1..], i - 1);
      var p :| p in rest && p.id == plan[i].id
                        && SameAddress(p.baseUrl, accounts[i].baseUrl) && p.keyRef == "provider:" + p.id;
      assert p in NewProviders(accounts, plan);
    }
  }

  /** Plan, import what was planned, add any other providers, and plan again: nothing is planned a second time, and
      what was just imported is recognised by its source. */
  lemma ImportedOnce(config: AppConfig, accounts: seq<SourceAccount>, fingerprints: map<string, string>,
                     later: map<string, string>, lower: string -> string, after: AppConfig, i: nat)
    requires i < |accounts|
    requires var plan := PlanImport(config, accounts, fingerprints, lower);
             forall p :: p in Imported(config, accounts, plan).providers ==> p in after.providers
    ensures var d, e := PlanImport(config, accounts, fingerprints, lower)[i], PlanImport(after, accounts, later, lower)[i];
            && (d.Planned? ==> e.AlreadyImported? && e.because.SameSource?)
            && (d.AlreadyImported? && d.because.SameSource? ==> e.AlreadyImported? && e.because.SameSource?)
            && (d.AlreadyImported? && later == fingerprints ==> e.AlreadyImported?)
  {
    var plan := PlanImport(config, accounts, fingerprints, lower);
    var account := accounts[i];
    MarkerFound(config.providers, account);
    MarkerFound(after.providers, account);
    if plan[i].Planned? {
      PlannedIsAdded(accounts, plan, i);
      var p :| p in NewProviders(accounts, plan) && p.id == plan[i].id;
      TargetCarriesMarker(account.name, account.sourceId, lower);
      assert p in Imported(config, accounts, plan).providers;
      assert Carries(p, account);
    } else {
      RecognitionStays(config.providers, after.providers, account, fingerprints, lower);
    }
  }

  /** Two entries are kept apart exactly when their markers differ: importing one makes the other count as the same
      source if and only if the 24 bits agree. */
  lemma OtherEntriesStayImportable(providers: seq<Provider>, a: SourceAccount, b: SourceAccount, baseUrl: string, keyRef: string, lower: string -> string)
    requires MatchingMarker(providers, b).None?
    ensures var added := Provider(SourceTargetId(a.name, a.sourceId, lower), baseUrl, keyRef);
            MatchingMarker(providers + [added], b).Some? <==> Marker(a.sourceId) == Marker(b.sourceId)
  {
    var added := Provider(SourceTargetId(a.name, a.sourceId, lower), baseUrl, keyRef);
    TargetCarriesMarker(a.name, a.sourceId, lower);
    MarkerFound(providers, b);
    MarkerFound(providers + [added], b);
    assert added in providers + [added];
  }

  ghost predicate AllDiffer(f: nat -> nat, n: nat) {
    forall i: nat, j: nat :: i < j < n ==> f(i) != f(j)
  }

  lemma {:induction false} ValuesOf(f: nat -> nat, n: nat) returns (values: set<nat>)
    requires AllDiffer(f, n)
    ensures |values| == n && forall v :: v in values ==> exists i: nat :: i < n && f(i) == v
  {
    values := {};
    if n > 0 {
      var before := ValuesOf(f, n - 1);
      values := before + {f(n - 1)};
    }
  }

  lemma {:induction false} BoundedSet(s: set<nat>, bound: nat)
    requires forall v :: v in s ==> v < bound
    ensures |s| <= bound
  {
    if bound > 0 {
      BoundedSet(s - {bound - 1}, bound - 1);
      assert s <= (s - {bound - 1}) + {bound - 1};
      if bound - 1 in s {
        assert s == (s - {bound - 1}) + {bound - 1};
      } else {
        assert s == s - {bound - 1};
      }
    }
  }

  lemma Pigeonhole(f: nat -> nat, bound: nat)
    requires forall i :: f(i) < bound
    ensures exists i: nat, j: nat :: i < j <= bound && f(i) == f(j)
  {
    if AllDiffer(f, bound + 1) {
      var values := ValuesOf(f, bound + 1);
      BoundedSet(values, bound);
    }
  }

  function Zeros(n: nat): seq<Byte> {
    seq(n, _ => 0)
  }

  /** Different source ids can share a marker: there are more ids than markers. */
  lemma MarkersCanCollide()
    ensures exists a, b :: a != b && Marker(a) == Marker(b)
  {
    var f := (n: nat) => Marker(Zeros(n));
    Pigeonhole(f, 0x100_0000);
    var i: nat, j: nat :| i < j && f(i) == f(j);
    assert |Zeros(i)| != |Zeros(j)|;
  }

  // ---- models ---------------------------------------------------------------------------------------------

  /** The standard tier is left empty exactly when no model is shared by all named tiers and the sonnet model is
      missing or is the opus model too. */
  lemma StandardServedWhen(opus: Option<string>, sonnet: Option<string>, haiku: Option<string>)
    ensures (exists name: string :: TierOf(opus, sonnet, haiku, name) == Some(Standard)) <==>
            Shared(opus, sonnet, haiku).Some? || (sonnet.Some? && sonnet != opus)
  {
    if Shared(opus, sonnet, haiku).Some? {
      assert TierOf(opus, sonnet, haiku, Shared(opus, sonnet, haiku).value) == Some(Standard);
    } else if sonnet.Some? && sonnet != opus {
      assert TierOf(opus, sonnet, haiku, sonnet.value) == Some(Standard);
    }
  }

  // ---- base ids -------------------------------------------------------------------------------------------

  lemma {:induction false} HyphensTrimmed(s: string)
    ensures var t := TrimHyphensEnd(s); (t == [] || t[|t| - 1] != '-') && t <= s
    decreases |s|
  {
    if s != [] && s[|s| - 1] == '-' {
      HyphensTrimmed(s[..|s| - 1]);
    }
  }

  lemma {:induction false} HyphensTrimmedStart(s: string)
    ensures var t := TrimHyphensStart(s); (t == [] || t[0] != '-') && (forall c :: c in t ==> c in s)
    decreases s
  {
    if s != [] && s[0] == '-' {
      HyphensTrimmedStart(s[1..]);
    }
  }

  /** A base id is never empty, neither begins nor ends with a hyphen, and holds only characters ids may hold. */
  lemma BaseIdIsTidy(name: string, lower: string -> string)
    ensures var base := BaseId(name, lower);
            base != [] && base[0] != '-' && base[|base| - 1] != '-' && forall i :: 0 <= i < |base| ==> IdChar(base[i]) == base[i]
  {
    var clean := Sanitised(lower(Trim(name)));
    var front := TrimHyphensStart(clean);
    HyphensTrimmedStart(clean);
    HyphensTrimmed(front);
    var base := BaseId(name, lower);
    forall i | 0 <= i < |base|
      ensures IdChar(base[i]) == base[i]
    {
      if base != "provider" {
        assert base[i] == front[i];
        assert front[i] in front && front[i] in clean;
      }
    }
  }

  // ---- the tier of a model --------------------------------------------------------------------------------

  /** A model serves all the tiers exactly when at least two name a model and all that do name this one. */
  lemma SharedWhen(opus: Option<string>, sonnet: Option<string>, haiku: Option<string>, name: string)
    ensures Shared(opus, sonnet, haiku) == Some(name) <==>
            && opus.GetOr(name) == name && sonnet.GetOr(name) == name && haiku.GetOr(name) == name
            && (|| (opus == Some(name) && sonnet == Some(name))
                || (opus == Some(name) && haiku == Some(name))
                || (sonnet == Some(name) && haiku == Some(name)))
  {
  }

  /** Unless one model serves all the tiers: the opus model is for reasoning, the sonnet model standard and the haiku
      model fast, and a model two tiers name is in the first of them. */
  lemma TierFollowsTheName(opus: Option<string>, sonnet: Option<string>, haiku: Option<string>, name: string)
    requires Shared(opus, sonnet, haiku).None?
    ensures TierOf(opus, sonnet, haiku, name) == Some(Reasoning) <==> opus == Some(name)
    ensures TierOf(opus, sonnet, haiku, name) == Some(Standard) <==> sonnet == Some(name) && opus != Some(name)
    ensures TierOf(opus, sonnet, haiku, name) == Some(Fast) <==> haiku == Some(name) && opus != Some(name) && sonnet != Some(name)
    ensures TierOf(opus, sonnet, haiku, name).None? <==> opus != Some(name) && sonnet != Some(name) && haiku != Some(name)
  {
  }

  // ---- the same account -----------------------------------------------------------------------------------

  function Slashes(n: nat): string {
    seq(n, _ => '/')
  }

  lemma {:induction false} TrimmedOfSlashes(url: string, n: nat)
    ensures TrimSlashes(url + Slashes(n)) == TrimSlashes(url)
    decreases n
  {
    if n == 0 {
      assert url + Slashes(0) == url;
    } else {
      var s := url + Slashes(n);
      assert s[..|s| - 1] == url + Slashes(n - 1);
      TrimmedOfSlashes(url, n - 1);
    }
  }

  lemma {:induction false} SlashesCutOff(url: string) returns (n: nat)
    ensures url == TrimSlashes(url) + Slashes(n)
    decreases |url|
  {
    n := 0;
    if url != [] && url[|url| - 1] == '/' {
      var front := url[..|url| - 1];
      var m := SlashesCutOff(front);
      n := m + 1;
      assert url == front + "/" && Slashes(n) == Slashes(m) + "/";
    } else {
      assert Slashes(0) == [];
    }
  }

  /** The addresses differ at most in the slashes at their end. */
  ghost predicate SameAddress(a: string, b: string) {
    exists url: string, m: nat, n: nat :: a == url + Slashes(m) && b == url + Slashes(n)
  }

  lemma SameAddressExactly(a: string, b: string)
    ensures TrimSlashes(a) == TrimSlashes(b) <==> SameAddress(a, b)
  {
    if TrimSlashes(a) == TrimSlashes(b) {
      var m := SlashesCutOff(a);
      var n := SlashesCutOff(b);
      assert a == TrimSlashes(a) + Slashes(m) && b == TrimSlashes(a) + Slashes(n);
    }
    if SameAddress(a, b) {
      var url: string, m: nat, n: nat :| a == url + Slashes(m) && b == url + Slashes(n);
      TrimmedOfSlashes(url, m);
      TrimmedOfSlashes(url, n);
    }
  }

  /** An entry no provider carries the marker of is imported exactly when no provider has its address and its
      credential; without a readable credential it always is. */
  lemma ImportedUnlessSameAccount(providers: seq<Provider>, account: SourceAccount, fingerprints: map<string, string>, lower: string -> string)
    requires forall p :: p in providers ==> !Carries(p, account)
    ensures Decide(providers, account, fingerprints, lower).AlreadyImported? <==>
            exists p :: p in providers && SameAddress(p.baseUrl, account.baseUrl)
                        && account.fingerprint.Some? && p.keyRef in fingerprints && fingerprints[p.keyRef] == account.fingerprint.value
  {
    MarkerFound(providers, account);
    AccountFound(providers, account, fingerprints);
    forall p | p in providers
      ensures TrimSlashes(p.baseUrl) == TrimSlashes(account.baseUrl) <==> SameAddress(p.baseUrl, account.baseUrl)
    {
      SameAddressExactly(p.baseUrl, account.baseUrl);
    }
  }

  // ---- the hash -------------------------------------------------------------------------------------------

  /** The published value of the 64-bit FNV-1a hash of the letter `a`. */
  lemma HashOfLetterA()
    ensures Hashed(OFFSET_BASIS, [0x61]) == 0xaf63_dc4c_8601_ec8c
  {
    var low := (OFFSET_BASIS % 0x100) as Byte;
    assert low == 0x25 && low ^ 0x61 == 0x44;
    assert XorByte(OFFSET_BASIS, 0x61) == 0xcbf2_9ce4_8422_2344;
    assert [0x61 as Byte][1..] == [];
  }

  /** The marker of that letter: the low 24 bits. */
  lemma MarkerOfLetterA()
    ensures Marker([0x61]) == 0x01_ec8c
  {
    HashOfLetterA();
  }

  // ---- names and ids --------------------------------------------------------------------------------------

  function Hyphens(n: nat): string {
    seq(n, _ => '-')
  }

  lemma {:induction false} HyphensInFront(s: string) returns (n: nat)
    ensures s == Hyphens(n) + TrimHyphensStart(s)
    decreases s
  {
    n := 0;
    if s != [] && s[0] == '-' {
      var m := HyphensInFront(s[1..]);
      n := m + 1;
      assert Hyphens(n) == "-" + Hyphens(m) && s == "-" + s[1..];
    } else {
      assert Hyphens(0) == [];
    }
  }

  lemma {:induction false} HyphensBehind(s: string) returns (n: nat)
    ensures s == TrimHyphensEnd(s) + Hyphens(n)
    decreases |s|
  {
    n := 0;
    if s != [] && s[|s| - 1] == '-' {
      var m := HyphensBehind(s[..|s| - 1]);
      n := m + 1;
      assert Hyphens(n) == Hyphens(m) + "-" && s == s[..|s| - 1] + "-";
    } else {
      assert Hyphens(0) == [];
    }
  }

  /** The base id is the lower-cased name with its other characters replaced, less the hyphens at both ends; when only
      hyphens are left it is `provider`. */
  lemma BaseIdKeepsTheName(name: string, lower: string -> string) returns (front: nat, back: nat)
    ensures var clean, base := Sanitised(lower(Trim(name))), BaseId(name, lower);
            clean == Hyphens(front) + base + Hyphens(back) || (base == "provider" && forall c :: c in clean ==> c == '-')
  {
    var clean := Sanitised(lower(Trim(name)));
    var rest := TrimHyphensStart(clean);
    front := HyphensInFront(clean);
    back := HyphensBehind(rest);
    var base := TrimHyphensEnd(rest);
    ConcatAssociates(Hyphens(front), base, Hyphens(back));
    if base == [] {
      assert forall c :: c in Hyphens(front) + [] + Hyphens(back) ==> c == '-';
    }
  }

  /** The first other candidate ends in 2, and candidates count on from there. */
  lemma CandidatesCountFromTwo(base: string, k: nat)
    ensures Candidate(base, 0) == base && Candidate(base, 1) == base + "-2"
    ensures k > 0 ==> Candidate(base, k) == base + "-" + Decimal(k + 1)
  {
    assert Decimal(2) == "2";
  }

  lemma {:induction false} NoHyphenNoPart(id: string)
    requires '-' !in id
    ensures LastPart(id).None?
    decreases |id|
  {
    if id != [] {
      NoHyphenNoPart(id[..|id| - 1]);
    }
  }

  /** An id without a hyphen carries no marker, whatever digits it is made of. */
  lemma NoHyphenNoMarker(id: string)
    requires '-' !in id
    ensures MarkerIn(id).None?
  {
    NoHyphenNoPart(id);
  }

  lemma {:induction false} FoundMarkerIsCarried(providers: seq<Provider>, account: SourceAccount)
    requires MatchingMarker(providers, account).Some?
    ensures exists p :: p in providers && p.id == MatchingMarker(providers, account).value && Carries(p, account)
    decreases providers
  {
    if MarkerIn(providers[0].id) != Some(Marker(account.sourceId)) {
      FoundMarkerIsCarried(providers[1..], account);
      var p :| p in providers[1..] && p.id == MatchingMarker(providers[1..], account).value && Carries(p, account);
      assert p in providers;
    } else {
      assert providers[0] in providers && Carries(providers[0], account);
    }
  }

  lemma {:induction false} FoundAccountIsTheSame(providers: seq<Provider>, account: SourceAccount, fingerprints: map<string, string>)
    requires MatchingAccount(providers, account, fingerprints).Some?
    ensures exists p :: p in providers && p.id == MatchingAccount(providers, account, fingerprints).value && IsAccount(p, account, fingerprints)
    decreases providers
  {
    if !IsAccount(providers[0], account, fingerprints) {
      FoundAccountIsTheSame(providers[1..], account, fingerprints);
      var p :| p in providers[1..] && p.id == MatchingAccount(providers[1..], account, fingerprints).value && IsAccount(p, account, fingerprints);
      assert p in providers;
    } else {
      assert providers[0] in providers;
    }
  }

  /** What an entry is recognised by is a configured provider: one that carries its marker, or one of its account. */
  lemma RecognisedByAProvider(providers: seq<Provider>, account: SourceAccount, fingerprints: map<string, string>, lower: string -> string)
    ensures var d := Decide(providers, account, fingerprints, lower);
            d.AlreadyImported? ==>
              exists p :: p in providers && p.id == d.existing
                          && if d.because.SameSource? then Carries(p, account) else IsAccount(p, account, fingerprints)
  {
    var d := Decide(providers, account, fingerprints, lower);
    if d.AlreadyImported? {
      if d.because.SameSource? {
        FoundMarkerIsCarried(providers, account);
        var p :| p in providers && p.id == d.existing && Carries(p, account);
      } else {
        FoundAccountIsTheSame(providers, account, fingerprints);
        var p :| p in providers && p.id == d.existing && IsAccount(p, account, fingerprints);
      }
    }
  }
}
