/** Importing provider accounts from CC Switch: which entry becomes which provider, and which is already there.
    Source ids are their UTF-8 bytes; `lower` is the platform's lower-casing of text. */
module CcSwitch {
  import opened Config
  import opened Tiers
  import opened Text
  import opened Wrappers

  // ---- markers --------------------------------------------------------------------------------------------

  const OFFSET_BASIS: nat := 0xcbf2_9ce4_8422_2325
  const PRIME: nat := 0x0000_0100_0000_01b3

  type Byte = bv8

  /** Exclusive or with a byte changes the low byte only. */
  function XorByte(hash: nat, byte: Byte): nat {
    hash / 0x100 * 0x100 + ((((hash % 0x100) as Byte) ^ byte) as nat)
  }

  /** Multiplication in 64 bits. */
  function WrappingMul(a: nat, b: nat): nat {
    a * b % 0x1_0000_0000_0000_0000
  }

  function Hashed(hash: nat, bytes: seq<Byte>): nat
    decreases bytes
  {
    if bytes == [] then hash else Hashed(WrappingMul(XorByte(hash, bytes[0]), PRIME), bytes[1..])
  }

  method Fnv1a(bytes: seq<Byte>) returns (hash: nat)
    ensures hash == Hashed(OFFSET_BASIS, bytes)
  {
    hash := OFFSET_BASIS;
    for i := 0 to |bytes|
      invariant Hashed(hash, bytes[i..]) == Hashed(OFFSET_BASIS, bytes)
    {
      assert bytes[i..][1..] == bytes[i + 1..];
      hash := XorByte(hash, bytes[i]);
      hash := WrappingMul(hash, PRIME);
    }
  }

  /** The low 24 bits of the hash. */
  function Marker(sourceId: seq<Byte>): (n: nat)
    ensures n < 0x100_0000
  {
    Hashed(OFFSET_BASIS, sourceId) % 0x100_0000
  }

  function HexChar(d: nat): (c: char)
    requires d < 16
    ensures c != '-' && c != '+' && HexDigit(c) == Some(d)
  {
    if d < 10 then ('0' as int + d) as char else ('a' as int + d - 10) as char
  }

  /** The low `width` hexadecimal digits, with leading zeros. */
  function HexText(n: nat, width: nat): (s: string)
    ensures |s| == width && '-' !in s && '+' !in s
  {
    if width == 0 then [] else HexText(n / 16, width - 1) + [HexChar(n % 16)]
  }

  function HexValue(digits: string): Option<nat> {
    if digits == [] then Some(0)
    else
      var rest, last := HexValue(digits[..|digits| - 1]), HexDigit(digits[|digits| - 1]);
      if rest.None? || last.None? then None else Some(rest.value * 16 + last.value)
  }

  /** A plus sign if any, then hexadecimal digits that fit 64 bits. */
  function ParseHex(s: string): Option<nat> {
    var digits := if s != [] && s[0] == '+' then s[1..] else s;
    if digits == [] then None
    else
      var v := HexValue(digits);
      if v.Some? && v.value < 0x1_0000_0000_0000_0000 then v else None
  }

  /** What follows the last hyphen. */
  function LastPart(s: string): Option<string> {
    if s == [] then None
    else
      var n := |s| - 1;
      if s[n] == '-' then Some("")
      else
        var rest := LastPart(s[..n]);
        if rest.None? then None else Some(rest.value + [s[n]])
  }

  /** The marker a provider id carries. */
  function MarkerIn(id: string): Option<nat> {
    var last := LastPart(id);
    if last.None? then None else ParseHex(last.value)
  }

  // ---- provider ids ---------------------------------------------------------------------------------------

  function TrimHyphensStart(s: string): string {
    if s != [] && s[0] == '-' then TrimHyphensStart(s[1..]) else s
  }

  function TrimHyphensEnd(s: string): string {
    if s != [] && s[|s| - 1] == '-' then TrimHyphensEnd(s[..|s| - 1]) else s
  }

  function BaseId(name: string, lower: string -> string): string {
    var base := TrimHyphensEnd(TrimHyphensStart(Sanitised(lower(Trim(name)))));
    if base == [] then "provider" else base
  }

  /** The base itself, then numbered from 2. */
  function Candidate(base: string, k: nat): string {
    if k == 0 then base else base + "-" + Decimal(k + 1)
  }

  method UniqueProviderId(name: string, lower: string -> string, taken: set<string>) returns (id: string)
    ensures id !in taken
    ensures exists k: nat :: id == Candidate(BaseId(name, lower), k) && forall j: nat :: j < k ==> Candidate(BaseId(name, lower), j) in taken
  {
    var base := BaseId(name, lower);
    id := base;
    var n := 2;
    ghost var k := 0;
    while id in taken
      invariant n == k + 2 && id == Candidate(base, k)
      invariant forall j: nat :: j < k ==> Candidate(base, j) in taken
      invariant k <= |taken|
      decreases |taken| - k
    {
      CandidatesFillTaken(base, k + 1, taken);
      k := k + 1;
      id := base + "-" + Decimal(n);
      n := n + 1;
    }
  }

  lemma CandidatesDiffer(base: string, j: nat, k: nat)
    requires Candidate(base, j) == Candidate(base, k)
    ensures j == k
  {
    if j > 0 && k > 0 {
      assert Candidate(base, j)[|base| + 1..] == Decimal(j + 1);
      assert Candidate(base, k)[|base| + 1..] == Decimal(k + 1);
      DecimalRoundTrip(j + 1);
      DecimalRoundTrip(k + 1);
    }
  }

  lemma {:induction false} Tried(base: string, k: nat) returns (tried: set<string>)
    ensures |tried| == k && forall x :: x in tried ==> exists j: nat :: j < k && x == Candidate(base, j)
  {
    tried := {};
    if k > 0 {
      var before := Tried(base, k - 1);
      if Candidate(base, k - 1) in before {
        var j: nat :| j < k - 1 && Candidate(base, k - 1) == Candidate(base, j);
        CandidatesDiffer(base, j, k - 1);
      }
      tried := before + {Candidate(base, k - 1)};
    }
  }

  lemma CandidatesFillTaken(base: string, k: nat, taken: set<string>)
    requires forall j: nat :: j < k ==> Candidate(base, j) in taken
    ensures k <= |taken|
  {
    var tried := Tried(base, k);
    assert tried <= taken;
    assert taken == tried + (taken - tried);
  }

  function SourceTargetId(name: string, sourceId: seq<Byte>, lower: string -> string): string {
    BaseId(name, lower) + "-" + HexText(Marker(sourceId), 6)
  }

  // ---- planning -------------------------------------------------------------------------------------------

  datatype SourceAccount = SourceAccount(sourceId: seq<Byte>, name: string, baseUrl: string, fingerprint: Option<string>)

  datatype Recognised = SameSource | SameAccount

  datatype Decision = Planned(id: string) | AlreadyImported(existing: string, because: Recognised)

  function TrimSlashes(s: string): string {
    if s != [] && s[|s| - 1] == '/' then TrimSlashes(s[..|s| - 1]) else s
  }

  function MatchingMarker(providers: seq<Provider>, account: SourceAccount): Option<string> {
    if providers == [] then None
    else if MarkerIn(providers[0].id) == Some(Marker(account.sourceId)) then Some(providers[0].id)
    else MatchingMarker(providers[1..], account)
  }

  predicate IsAccount(p: Provider, account: SourceAccount, fingerprints: map<string, string>) {
    && account.fingerprint.Some?
    && TrimSlashes(p.baseUrl) == TrimSlashes(account.baseUrl)
    && p.keyRef in fingerprints && fingerprints[p.keyRef] == account.fingerprint.value
  }

  function MatchingAccount(providers: seq<Provider>, account: SourceAccount, fingerprints: map<string, string>): Option<string> {
    if providers == [] then None
    else if IsAccount(providers[0], account, fingerprints) then Some(providers[0].id)
    else MatchingAccount(providers[1..], account, fingerprints)
  }

  function Decide(providers: seq<Provider>, account: SourceAccount, fingerprints: map<string, string>, lower: string -> string): Decision {
    var marked := MatchingMarker(providers, account);
    if marked.Some? then AlreadyImported(marked.value, SameSource)
    else
      var same := MatchingAccount(providers, account, fingerprints);
      if same.Some? then AlreadyImported(same.value, SameAccount)
      else Planned(SourceTargetId(account.name, account.sourceId, lower))
  }

  function PlanImport(config: AppConfig, accounts: seq<SourceAccount>, fingerprints: map<string, string>, lower: string -> string): seq<Decision> {
    seq(|accounts|, i requires 0 <= i < |accounts| => Decide(config.providers, accounts[i], fingerprints, lower))
  }

  /** The providers an import of a plan adds. */
  function NewProviders(accounts: seq<SourceAccount>, plan: seq<Decision>): seq<Provider>
    requires |plan| == |accounts|
    decreases accounts
  {
    if accounts == [] then []
    else
      (if plan[0].Planned? then [Provider(plan[0].id, TrimSlashes(accounts[0].baseUrl), "provider:" + plan[0].id)] else [])
      + NewProviders(accounts[1..], plan[1..])
  }

  function Imported(config: AppConfig, accounts: seq<SourceAccount>, plan: seq<Decision>): AppConfig
    requires |plan| == |accounts|
  {
    config.(providers := config.providers + NewProviders(accounts, plan))
  }

  // ---- models ---------------------------------------------------------------------------------------------

  datatype CcModel = CcModel(upstreamModel: string, tier: Option<Tier>)

  predicate Lists(models: seq<CcModel>, name: string) {
    exists i :: 0 <= i < |models| && models[i].upstreamModel == name
  }

  /** The model all named tiers share, when at least two are named. */
  function Shared(opus: Option<string>, sonnet: Option<string>, haiku: Option<string>): Option<string> {
    match (opus, sonnet, haiku)
    case (Some(o), Some(s), Some(h)) => if o == s && s == h then Some(s) else None
    case (Some(o), Some(s), None) => if o == s then Some(s) else None
    case (Some(o), None, Some(h)) => if o == h then Some(o) else None
    case (None, Some(s), Some(h)) => if s == h then Some(s) else None
    case _ => None
  }

  predicate Distinct(models: seq<CcModel>) {
    forall i, j :: 0 <= i < j < |models| ==> models[i].upstreamModel != models[j].upstreamModel
  }

  function WithModel(models: seq<CcModel>, name: Option<string>, tier: Option<Tier>): seq<CcModel> {
    if name.Some? && !Lists(models, name.value) then models + [CcModel(name.value, tier)] else models
  }

  lemma WithModelAdds(models: seq<CcModel>, name: Option<string>, tier: Option<Tier>)
    requires Distinct(models)
    ensures var more := WithModel(models, name, tier);
            && Distinct(more)
            && (forall x :: Lists(more, x) <==> Lists(models, x) || name == Some(x))
            && (forall m :: m in more <==> m in models || (name == Some(m.upstreamModel) && m.tier == tier && !Lists(models, m.upstreamModel)))
  {
    var more := WithModel(models, name, tier);
    if name.Some? && !Lists(models, name.value) {
      assert more[|models|] == CcModel(name.value, tier);
      assert forall i :: 0 <= i < |models| ==> more[i] == models[i];
    }
  }

  /** One model for all the tiers serves the standard one; else the first of opus, sonnet and haiku that names it. */
  function TierOf(opus: Option<string>, sonnet: Option<string>, haiku: Option<string>, name: string): Option<Tier> {
    if Shared(opus, sonnet, haiku) == Some(name) then Some(Standard)
    else if opus == Some(name) then Some(Reasoning)
    else if sonnet == Some(name) then Some(Standard)
    else if haiku == Some(name) then Some(Fast)
    else None
  }

  method TierModels(opus: Option<string>, sonnet: Option<string>, haiku: Option<string>) returns (models: seq<CcModel>)
    ensures Distinct(models)
    ensures forall x :: Lists(models, x) <==> opus == Some(x) || sonnet == Some(x) || haiku == Some(x)
    ensures forall m :: m in models ==> m.tier.Some? && m.tier == TierOf(opus, sonnet, haiku, m.upstreamModel)
  {
    var shared := Shared(opus, sonnet, haiku);
    if shared.Some? {
      models := [CcModel(shared.value, Some(Standard))];
      assert models[0].upstreamModel == shared.value;
      return;
    }
    models := [];
    WithModelAdds(models, opus, Some(Reasoning));
    models := WithModel(models, opus, Some(Reasoning));
    WithModelAdds(models, sonnet, Some(Standard));
    models := WithModel(models, sonnet, Some(Standard));
    WithModelAdds(models, haiku, Some(Fast));
    models := WithModel(models, haiku, Some(Fast));
  }

  /** Every model an entry names, once, in the tier that names it; what only the other variables name has no tier. */
  method CollectModels(opus: Option<string>, sonnet: Option<string>, haiku: Option<string>, main: Option<string>, subagent: Option<string>)
    returns (models: seq<CcModel>)
    ensures Distinct(models)
    ensures forall x :: Lists(models, x) <==> opus == Some(x) || sonnet == Some(x) || haiku == Some(x) || main == Some(x) || subagent == Some(x)
    ensures forall m :: m in models ==> m.tier == TierOf(opus, sonnet, haiku, m.upstreamModel)
  {
    models := TierModels(opus, sonnet, haiku);
    ghost var tiers := models;
    forall m | m in tiers
      ensures Lists(tiers, m.upstreamModel)
    {
      var i :| 0 <= i < |tiers| && tiers[i] == m;
    }
    WithModelAdds(models, main, None);
    models := WithModel(models, main, None);
    WithModelAdds(models, subagent, None);
    models := WithModel(models, subagent, None);
  }
}
