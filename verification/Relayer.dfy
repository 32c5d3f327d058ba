/**
 The relayer's decisions: what "ready" means, which onboarding case a holder is in, what it hands out
 to sign, and which signed envelopes the open callback endpoint submits. Envelopes appear decoded; an
 undecodable one is None.
 */
module Relayer {
  import opened Wrappers
  import opened StellarLedger
  import opened Sponsorship

  datatype OfficialAsset = OfficialAsset(code: string, issuer: string, sac: Address, authorizer: Option<Address>)

  /** The relayer's key, its pins and caps; `hint` is the signature hint of an account key. */
  datatype Config = Config(
    relayer: string, assets: seq<OfficialAsset>, router: Option<Address>, maxFee: int, hint: string -> int)

  function AssetIdOf(a: OfficialAsset): AssetId {
    Credit(a.code, a.issuer)
  }

  // ---- readiness and cases ----------------------------------------------------------------

  datatype HolderKind = AccountHolder | ContractHolder

  datatype Status = Status(holderKind: HolderKind, hasTrustline: bool, isAuthorized: bool, sacAuthorized: Option<bool>)

  /** The native balance is in stroops, absent when it was not read. */
  datatype AccountView = AccountView(status: Status, accountExists: bool, xlmBalance: Option<int>)

  datatype NotReady = NoAccount | NoTrustline | TrustlineUnauthorized | ContractNotAuthorized

  datatype Case = Ready | CaseA | CaseB(createAccount: bool) | CaseC

  const CASE_C_MIN := 16_000_000

  /** None is ready; otherwise the reason. */
  function ComputeReady(asset: OfficialAsset, view: AccountView): Option<NotReady> {
    var s := view.status;
    if s.holderKind.ContractHolder? then
      if s.sacAuthorized == Some(true) then None else Some(ContractNotAuthorized)
    else if !view.accountExists then Some(NoAccount)
    else if !s.hasTrustline then Some(NoTrustline)
    else if asset.authorizer.Some? && !s.isAuthorized then Some(TrustlineUnauthorized)
    else None
  }

  function DiagnoseCase(asset: OfficialAsset, view: AccountView): Case {
    if ComputeReady(asset, view).None? then Ready
    else if view.status.holderKind.ContractHolder? then CaseC
    else if !view.accountExists then CaseB(true)
    else if view.status.hasTrustline then if asset.authorizer.Some? then CaseA else Ready
    else if view.xlmBalance.Some? && view.xlmBalance.value < CASE_C_MIN then CaseB(false)
    else CaseC
  }

  /** The relayer's reads of the ledger, all of them successful. */
  function ReadView(l: Ledger, asset: OfficialAsset, holder: Address): AccountView {
    if !holder.Account? then
      AccountView(Status(ContractHolder, false, false, AuthorizedView(l, asset.sac, holder)), true, None)
    else
      var line := HoldsLine(l, AssetIdOf(asset), holder.key);
      var flag := line && l.assets[AssetIdOf(asset)].positions[holder].authorized;
      var exists_ := holder.key in l.accounts;
      AccountView(Status(AccountHolder, line, flag, Some(flag)), exists_,
                  if exists_ then Some(l.accounts[holder.key].balance) else None)
  }

  function IsReady(l: Ledger, asset: OfficialAsset, holder: Address): bool {
    ComputeReady(asset, ReadView(l, asset, holder)).None?
  }

  /**
   A payment of this amount to the holder lands: into an authorized position with room for it. The issuer
   takes its own asset back without holding any.
   */
  predicate Payable(l: Ledger, asset: OfficialAsset, holder: Address, amount: int) {
    if holder == Account(asset.issuer) then true
    else if holder.Account? then
      && holder.key in l.accounts
      && HoldsLine(l, AssetIdOf(asset), holder.key)
      && var line := l.assets[AssetIdOf(asset)].positions[holder];
         line.authorized && line.balance + amount <= Ceiling(line, holder)
    else
      && AuthorizedView(l, asset.sac, holder) == Some(true)
      && var entry := PositionOr(AssetOf(l, asset.sac), holder);
         entry.balance + amount <= Ceiling(entry, holder)
  }

  /** Where readiness misleads: the issuer, an unauthorized line nobody is named to authorize, a full position. */
  predicate Misleads(l: Ledger, asset: OfficialAsset, holder: Address, amount: int) {
    if holder == Account(asset.issuer) then true
    else if holder.Account? then
      && holder.key in l.accounts
      && HoldsLine(l, AssetIdOf(asset), holder.key)
      && var line := l.assets[AssetIdOf(asset)].positions[holder];
         if line.authorized then line.balance + amount > Ceiling(line, holder) else asset.authorizer.None?
    else
      && AuthorizedView(l, asset.sac, holder) == Some(true)
      && var entry := PositionOr(AssetOf(l, asset.sac), holder);
         entry.balance + amount > Ceiling(entry, holder)
  }

  /** "Ready" means that a payment lands exactly where it does not mislead; the issuer holds no line of its own. */
  lemma ReadyMeansPayable(l: Ledger, asset: OfficialAsset, holder: Address, amount: int)
    requires !HoldsLine(l, AssetIdOf(asset), asset.issuer)
    ensures (IsReady(l, asset, holder) <==> Payable(l, asset, holder, amount)) <==> !Misleads(l, asset, holder, amount)
  {
  }

  /** Each way to be misled happens: ready with a full or an unauthorized line, and the issuer never ready. */
  lemma ReadinessMisleads()
    ensures exists l, asset, holder, amount ::
              amount > 0 && IsReady(l, asset, holder) && !Payable(l, asset, holder, amount)
              && AuthorizedView(l, asset.sac, holder) == Some(true)
    ensures exists l, asset, holder, amount ::
              amount > 0 && IsReady(l, asset, holder) && !Payable(l, asset, holder, amount)
              && AuthorizedView(l, asset.sac, holder) == Some(false)
    ensures exists l, asset, holder, amount ::
              amount > 0 && !IsReady(l, asset, holder) && Payable(l, asset, holder, amount)
  {
    var id := Credit("USDC", "GISSUER");
    var asset := OfficialAsset("USDC", "GISSUER", SacOf(id), None);
    var holder := Account("GHOLDER");
    var full := LedgerWith(id, holder, Position(true, 7, 7, false, None));
    assert IsReady(full, asset, holder) && !Payable(full, asset, holder, 1);
    assert AuthorizedView(full, asset.sac, holder) == Some(true);
    var waiting := LedgerWith(id, holder, Position(false, 0, 7, false, None));
    assert IsReady(waiting, asset, holder) && !Payable(waiting, asset, holder, 1);
    assert AuthorizedView(waiting, asset.sac, holder) == Some(false);
    assert !IsReady(full, asset, Account("GISSUER")) && Payable(full, asset, Account("GISSUER"), 1);
  }

  /** A ledger with one asset that requires authorization and one line of it. */
  function LedgerWith(id: AssetId, holder: Address, line: Position): Ledger
    requires id.Credit? && holder.Account?
  {
    Ledger(map[holder.key := AccountEntry(20_000_000, 1, 0, 0)],
           map[id := Asset(true, Account(id.issuer), true, true, false, map[holder := line], [])], {})
  }

  /** A case names a repair: the second "ready" branch of the diagnosis is never the one taken. */
  lemma CasesAreExhaustive(asset: OfficialAsset, view: AccountView)
    ensures DiagnoseCase(asset, view).Ready? <==> ComputeReady(asset, view).None?
    ensures DiagnoseCase(asset, view).CaseA? <==>
              ComputeReady(asset, view) == Some(TrustlineUnauthorized)
    ensures DiagnoseCase(asset, view) == CaseB(true) <==> ComputeReady(asset, view) == Some(NoAccount)
    ensures DiagnoseCase(asset, view) == CaseB(false) <==>
              ComputeReady(asset, view) == Some(NoTrustline)
              && view.xlmBalance.Some? && view.xlmBalance.value < 16_000_000
    ensures DiagnoseCase(asset, view).CaseC? <==>
              || ComputeReady(asset, view) == Some(ContractNotAuthorized)
              || (&& ComputeReady(asset, view) == Some(NoTrustline)
                  && (view.xlmBalance.Some? ==> view.xlmBalance.value >= 16_000_000))
  {
  }

  /** The one reason given, for every view: the first thing missing on the way to a usable line. */
  lemma ReasonsExactly(asset: OfficialAsset, view: AccountView)
    ensures var classic, s := view.status.holderKind.AccountHolder?, view.status;
            var reason := ComputeReady(asset, view);
            && (reason == Some(ContractNotAuthorized) <==> !classic && s.sacAuthorized != Some(true))
            && (reason == Some(NoAccount) <==> classic && !view.accountExists)
            && (reason == Some(NoTrustline) <==> classic && view.accountExists && !s.hasTrustline)
            && (reason == Some(TrustlineUnauthorized) <==>
                  classic && view.accountExists && s.hasTrustline && asset.authorizer.Some? && !s.isAuthorized)
  {
  }

  // ---- the Case C threshold ---------------------------------------------------------------

  /** A holder the diagnosis sends to Case C can pay for its line when nothing else of its is reserved. */
  lemma CaseCAffordsLine(l: Ledger, asset: OfficialAsset, holder: Address, fee: int)
    requires holder.Account? && DiagnoseCase(asset, ReadView(l, asset, holder)).CaseC?
    requires 0 <= fee <= 1_000_000
    ensures holder.key in l.accounts
    ensures var e := l.accounts[holder.key];
            OtherReserves(e) <= 0 ==> Available(e) - fee >= BASE_RESERVE
  {
    var e := l.accounts[holder.key];
    assert e.balance >= CASE_C_MIN;
    ThresholdSuffices(OtherReserves(e), fee);
  }

  /** Reserves an account owes beyond its own two and beyond what sponsors carry for it. */
  function OtherReserves(e: AccountEntry): int {
    e.subEntries + e.sponsoring - e.sponsored
  }

  /** The threshold is enough for every account with n other reserves exactly when there are none. */
  lemma ThresholdSuffices(n: int, fee: int)
    requires 0 <= fee <= 1_000_000
    ensures (forall e: AccountEntry :: OtherReserves(e) == n && e.balance >= CASE_C_MIN ==>
                                         Available(e) - fee >= BASE_RESERVE)
            <==> n <= 0
  {
    if n > 0 {
      var e := AccountEntry(CASE_C_MIN, n, 0, 0);
      assert OtherReserves(e) == n && Available(e) <= 1_000_000;
    }
  }

  /** One other subentry and the threshold is not enough: Case C is diagnosed and `trust` fails. */
  lemma ThresholdIgnoresSubentries()
    ensures exists l: Ledger, asset: OfficialAsset, holder: Address ::
              && DiagnoseCase(asset, ReadView(l, asset, holder)).CaseC?
              && IsSac(l, asset.sac) && asset.sac == SacOf(AssetIdOf(asset))
              && TryTrust(l, asset.sac, holder).None?
  {
    var id := Credit("USDC", "GISSUER");
    var asset := OfficialAsset("USDC", "GISSUER", SacOf(id), None);
    var l := Ledger(map["GHOLDER" := AccountEntry(16_000_000, 1, 0, 0)],
                    map[id := Asset(true, Account("GISSUER"), false, false, false, map[], [])], {});
    var holder := Account("GHOLDER");
    assert Available(l.accounts["GHOLDER"]) == 1_000_000;
    assert DiagnoseCase(asset, ReadView(l, asset, holder)).CaseC?;
    assert TryTrust(l, asset.sac, holder).None?;
  }

  // ---- describing an envelope -------------------------------------------------------------

  datatype OnboardCall = OnboardCall(router: Address, sac: Address, holder: Address)

  datatype Summary = Summary(
    source: string, fee: int, feeBump: bool, signatures: nat, ops: seq<Op>, onboard: Option<OnboardCall>)

  function InnerOf(env: Envelope): Tx {
    if env.FeeBump? then env.inner else env.tx
  }

  function OnboardOf(ops: seq<Op>): Option<OnboardCall> {
    if |ops| == 1 && ops[0].InvokeContract? && ops[0].function_ == "onboard" && |ops[0].args| == 2
       && ops[0].args[0].Reads? && ops[0].args[1].Reads? && !ops[0].args[0].address.Account?
    then Some(OnboardCall(ops[0].contract, ops[0].args[0].address, ops[0].args[1].address))
    else None
  }

  function Describe(env: Envelope): Summary {
    match env
    case Plain(tx) => Summary(tx.source, tx.fee, false, |tx.signatures|, tx.ops, OnboardOf(tx.ops))
    case FeeBump(payer, fee, inner, sigs) =>
      Summary(payer, fee, true, |sigs| + |inner.signatures|, inner.ops, OnboardOf(inner.ops))
  }

  function AuthorizersOf(auth: seq<AuthEntry>): set<Address> {
    set e | e in auth && e.AddressCredentials? :: e.address
  }

  /** Everyone whose signature the envelope needs: fee source, source, operation sources, auth entries. */
  function SignersNeeded(env: Envelope): set<Address> {
    var tx := InnerOf(env);
    (if env.FeeBump? then {Account(env.feeSource)} else {}) + {Account(tx.source)}
    + SignersOfOps(tx.ops)
  }

  function SignersOfOps(ops: seq<Op>): set<Address> {
    (set o | o in ops && o.source.Some? :: Account(o.source.value))
    + (set o, e | o in ops && o.InvokeContract? && e in o.auth && e.AddressCredentials? :: e.address)
  }

  method CollectSigners(env: Envelope) returns (signers: set<Address>)
    ensures signers == SignersNeeded(env)
  {
    signers := {};
    if env.FeeBump? {
      signers := signers + {Account(env.feeSource)};
    }
    var tx := InnerOf(env);
    signers := signers + {Account(tx.source)};
    ghost var before := signers;
    for i := 0 to |tx.ops|
      invariant signers == before + SignersOfOps(tx.ops[..i])
    {
      var o := tx.ops[i];
      assert tx.ops[..i + 1] == tx.ops[..i] + [o];
      if o.source.Some? {
        signers := signers + {Account(o.source.value)};
      }
      if o.InvokeContract? {
        signers := signers + AuthorizersOf(o.auth);
      }
    }
    assert tx.ops[..|tx.ops|] == tx.ops;
  }

  /** Who must sign, one by one; and who of them the handoff can see. */
  lemma NeededExactly(env: Envelope, a: Address)
    ensures var tx := if env.FeeBump? then env.inner else env.tx;
            var pays := env.FeeBump? && a == Account(env.feeSource);
            var sources := a == Account(tx.source)
                           || exists o :: o in tx.ops && o.source.Some? && a == Account(o.source.value);
            var authorizes :=
              exists o, e :: o in tx.ops && o.InvokeContract? && e in o.auth && e == AddressCredentials(a);
            && (a in SignersNeeded(env) <==> pays || sources || authorizes)
            && forall user :: a in OtherSources(env, user) <==> (pays || sources) && a != user
  {
    var tx := if env.FeeBump? then env.inner else env.tx;
    if o, e :| o in tx.ops && o.InvokeContract? && e in o.auth && e == AddressCredentials(a) {
      assert e.AddressCredentials? && e.address == a;
    }
  }

  /** The account a request wants to sign, once its `pubkey` parameter is known. */
  function Sep7Signer(pubkey: Option<string>, s: Summary): Address {
    if pubkey.Some? then Account(pubkey.value)
    else if s.onboard.Some? then s.onboard.value.holder
    else if FirstSponsored(s.ops).Some? then Account(FirstSponsored(s.ops).value)
    else
      var others := set o | o in s.ops && o.source.Some? && o.source.value != s.source :: o.source.value;
      if |others| == 1 then Account(FirstOtherSource(s.ops, s.source).GetOr(s.source)) else Account(s.source)
  }

  function FirstSponsored(ops: seq<Op>): Option<string> {
    if ops == [] then None
    else if ops[0].BeginSponsoring? then Some(ops[0].sponsoredId)
    else FirstSponsored(ops[1..])
  }

  function FirstOtherSource(ops: seq<Op>, source: string): Option<string> {
    if ops == [] then None
    else if ops[0].source.Some? && ops[0].source.value != source then ops[0].source
    else FirstOtherSource(ops[1..], source)
  }

  // ---- what the relayer emits -------------------------------------------------------------

  /** Case B: the sandwich, sourced by the relayer as sponsor and already signed by it. */
  function EmitSponsored(cfg: Config, asset: OfficialAsset, holder: string, create: bool): Tx {
    SponsoredTx(cfg.relayer, holder, AssetIdOf(asset), create, AsSponsor).(signatures := [cfg.hint(cfg.relayer)])
  }

  /** Case C: the router call, sourced by a classic holder itself and by the relayer for a contract. */
  function EmitOnboard(cfg: Config, asset: OfficialAsset, holder: Address, fee: int, auth: seq<AuthEntry>): Tx
    requires cfg.router.Some?
  {
    Tx(if holder.Account? then holder.key else cfg.relayer, fee,
       [InvokeContract(None, cfg.router.value, "onboard", [Reads(asset.sac), Reads(holder)], auth)], [])
  }

  /** A classic holder adds its envelope signature; a contract signs inside its authorization entries. */
  function HolderSigns(cfg: Config, tx: Tx, holder: Address): Tx {
    if holder.Account? then tx.(signatures := tx.signatures + [cfg.hint(holder.key)]) else tx
  }

  /** The accounts other than the user that the handoff looks for: authorization entries are not among them. */
  function OtherSources(env: Envelope, user: Address): set<Address> {
    var tx := InnerOf(env);
    (if env.FeeBump? then {Account(env.feeSource)} else {}) + {Account(tx.source)} + SourcesOfOps(tx.ops) - {user}
  }

  function SourcesOfOps(ops: seq<Op>): set<Address> {
    set o | o in ops && o.source.Some? :: Account(o.source.value)
  }

  /** Whether a wallet that adds only the user's signature completes the envelope, as the handoff judges it. */
  predicate CompleteWithUser(env: Envelope, user: Address) {
    OtherSources(env, user) == {} || Describe(env).signatures > 0
  }

  method CoSigners(env: Envelope, user: Address) returns (others: set<Address>, alreadySigned: bool)
    ensures others == OtherSources(env, user)
    ensures alreadySigned <==> Describe(env).signatures > 0
  {
    var signers: set<Address> := {};
    var tx := InnerOf(env);
    var signatures := |tx.signatures|;
    if env.FeeBump? {
      signatures := |env.signatures| + signatures;
      signers := signers + {Account(env.feeSource)};
    }
    signers := signers + {Account(tx.source)};
    ghost var before := signers;
    for i := 0 to |tx.ops|
      invariant signers == before + SourcesOfOps(tx.ops[..i])
    {
      assert tx.ops[..i + 1] == tx.ops[..i] + [tx.ops[i]];
      if tx.ops[i].source.Some? {
        signers := signers + {Account(tx.ops[i].source.value)};
      }
    }
    assert tx.ops[..|tx.ops|] == tx.ops;
    others, alreadySigned := signers - {user}, signatures > 0;
  }

  /** What the handoff asks of any envelope: that nobody else must sign it, or that somebody has, in either layer. */
  lemma HandoffExactly(env: Envelope, user: Address)
    ensures var tx := if env.FeeBump? then env.inner else env.tx;
            CompleteWithUser(env, user) <==>
              || tx.signatures != [] || (env.FeeBump? && env.signatures != [])
              || (&& Account(tx.source) == user && (env.FeeBump? ==> Account(env.feeSource) == user)
                  && forall o :: o in tx.ops && o.source.Some? ==> Account(o.source.value) == user)
  {
    var tx := InnerOf(env);
    assert Account(tx.source) != user ==> Account(tx.source) in OtherSources(env, user);
    assert env.FeeBump? && Account(env.feeSource) != user ==> Account(env.feeSource) in OtherSources(env, user);
    if o :| o in tx.ops && o.source.Some? && Account(o.source.value) != user {
      assert Account(o.source.value) in OtherSources(env, user);
    }
  }

  /** A fee bump is described as what it wraps, paid by its own payer and signed in both layers. */
  lemma FeeBumpDescribed(payer: string, fee: int, tx: Tx, signatures: seq<int>)
    ensures var s, inner := Describe(FeeBump(payer, fee, tx, signatures)), Describe(Plain(tx));
            && s == inner.(source := payer, fee := fee, feeBump := true, signatures := s.signatures)
            && s.signatures == inner.signatures + |signatures|
            && inner.source == tx.source && inner.fee == tx.fee && !inner.feeBump
            && inner.signatures == |tx.signatures| && inner.ops == tx.ops
  {
  }

  /**
   For every emitted envelope the handoff finds the relayer missing on the sandwich, which it has signed,
   and on a contract holder's router call, which only the callback completes. What it overlooks is exactly
   an authorization entry of a third party.
   */
  lemma EmittedHandoff(cfg: Config, asset: OfficialAsset, holder: Address, create: bool, fee: int, auth: seq<AuthEntry>)
    requires cfg.router.Some? && holder != Account(cfg.relayer)
    ensures holder.Account? ==>
              var env := Plain(EmitSponsored(cfg, asset, holder.key, create));
              && OtherSources(env, holder) == SignersNeeded(env) - {holder} == {Account(cfg.relayer)}
              && CompleteWithUser(env, holder)
    ensures var env := Plain(EmitOnboard(cfg, asset, holder, fee, auth));
            && OtherSources(env, holder) == (if holder.Account? then {} else {Account(cfg.relayer)})
            && (CompleteWithUser(env, holder) <==> holder.Account?)
            && (OtherSources(env, holder) == SignersNeeded(env) - {holder} <==>
                forall e :: e in auth && e.AddressCredentials? ==>
                              e.address == holder || e.address == Account(env.tx.source))
  {
    if holder.Account? {
      var env := Plain(EmitSponsored(cfg, asset, holder.key, create));
      var ops := env.tx.ops;
      assert forall o :: o in ops && o.source.Some? ==> Account(o.source.value) == holder;
      assert forall o :: o in ops ==> !o.InvokeContract?;
    }
    EntriesAreSigners(EmitOnboard(cfg, asset, holder, fee, auth), auth);
  }

  lemma EntriesAreSigners(tx: Tx, auth: seq<AuthEntry>)
    requires |tx.ops| == 1 && tx.ops[0].InvokeContract? && tx.ops[0].source.None? && tx.ops[0].auth == auth
    ensures SignersNeeded(Plain(tx)) == {Account(tx.source)} + AuthorizersOf(auth)
    ensures SourcesOfOps(tx.ops) == {}
    ensures forall e :: e in auth && e.AddressCredentials? ==> e.address in AuthorizersOf(auth)
  {
    assert forall o :: o in tx.ops ==> o == tx.ops[0];
    assert tx.ops[0] in tx.ops;
    assert forall a :: a in AuthorizersOf(auth) ==> a in SignersOfOps(tx.ops);
  }

  // ---- what the callback accepts ----------------------------------------------------------

  datatype Kind = OnboardKind | SponsoredKind

  datatype Intent = Intent(asset: OfficialAsset, holder: Address, countersign: bool, kind: Kind)

  function FindByAsset(assets: seq<OfficialAsset>, id: AssetId): Option<OfficialAsset> {
    if assets == [] then None
    else if AssetIdOf(assets[0]) == id then Some(assets[0])
    else FindByAsset(assets[1..], id)
  }

  function FindBySac(assets: seq<OfficialAsset>, sac: Address): Option<OfficialAsset> {
    if assets == [] then None
    else if assets[0].sac == sac then Some(assets[0])
    else FindBySac(assets[1..], sac)
  }

  function FirstTrust(ops: seq<Op>): Option<TrustLineAsset> {
    if ops == [] then None
    else if ops[0].ChangeTrust? then Some(ops[0].line)
    else FirstTrust(ops[1..])
  }

  /** The accepted sponsored envelopes: a safe sandwich for a pinned asset that the holder has signed. */
  ghost predicate SponsoredAccepted(cfg: Config, tx: Tx, intent: Intent) {
    && tx.source == cfg.relayer
    && |tx.ops| >= 3 && tx.ops[0].BeginSponsoring? && tx.ops[0].sponsoredId != cfg.relayer
    && FirstTrust(tx.ops).Some? && FirstTrust(tx.ops).value.Line?
    && FindByAsset(cfg.assets, FirstTrust(tx.ops).value.asset) == Some(intent.asset)
    && SafeToSponsor(tx, cfg.relayer, tx.ops[0].sponsoredId, AssetIdOf(intent.asset))
    && tx.fee <= cfg.maxFee
    && cfg.hint(tx.ops[0].sponsoredId) in tx.signatures
    && intent == Intent(intent.asset, Account(tx.ops[0].sponsoredId), true, SponsoredKind)
  }

  method ValidateSponsoredCallback(cfg: Config, tx: Tx) returns (r: Option<Intent>)
    requires |tx.ops| >= 3 && tx.ops[0].BeginSponsoring?
    ensures r.Some? ==> SponsoredAccepted(cfg, tx, r.value)
    ensures r.None? ==> forall intent :: !SponsoredAccepted(cfg, tx, intent)
  {
    if tx.source != cfg.relayer {
      return None;
    }
    var holder := tx.ops[0].sponsoredId;
    if holder == cfg.relayer {
      return None;
    }
    var trust := FirstTrust(tx.ops);
    if trust.None? || trust.value.PoolShare? {
      return None;
    }
    var asset := FindByAsset(cfg.assets, trust.value.asset);
    if asset.None? {
      return None;
    }
    var verdict := AssertSafeToSponsor(Plain(tx), cfg.relayer, holder, AssetIdOf(asset.value));
    if verdict.Unsafe? || tx.fee > cfg.maxFee || cfg.hint(holder) !in tx.signatures {
      return None;
    }
    r := Some(Intent(asset.value, Account(holder), true, SponsoredKind));
  }

  /** The accepted router calls, holder-sourced or paid by the relayer on the holder's own credentials. */
  function OnboardAccepted(cfg: Config, tx: Tx): Option<Intent> {
    var call := OnboardOf(tx.ops);
    if |tx.ops| != 1 || call.None? || cfg.router.None? || call.value.router != cfg.router.value then None
    else
      var asset := FindBySac(cfg.assets, call.value.sac);
      var holder := call.value.holder;
      var op := tx.ops[0];
      if asset.None? || holder == Account(cfg.relayer) then None
      else if op.source.Some? && op.source.value != tx.source then None
      else if holder == Account(tx.source) then
        if |tx.signatures| == 0 then None else Some(Intent(asset.value, holder, false, OnboardKind))
      else if tx.source != cfg.relayer || tx.fee > cfg.maxFee then None
      else if exists e :: e in op.auth && e != AddressCredentials(holder) then None
      else Some(Intent(asset.value, holder, true, OnboardKind))
  }

  ghost predicate Accepted(cfg: Config, env: Envelope, intent: Intent) {
    && env.Plain?
    && if |env.tx.ops| >= 3 && env.tx.ops[0].BeginSponsoring?
       then SponsoredAccepted(cfg, env.tx, intent)
       else OnboardAccepted(cfg, env.tx) == Some(intent)
  }

  /** The security boundary of the open endpoint: exactly the accepted envelopes, each with one intent. */
  method ValidateSep7Callback(cfg: Config, decoded: Option<Envelope>) returns (r: Option<Intent>)
    ensures r.Some? ==> decoded.Some? && Accepted(cfg, decoded.value, r.value)
    ensures r.None? && decoded.Some? ==> forall intent :: !Accepted(cfg, decoded.value, intent)
  {
    if decoded.None? {
      return None;
    }
    var env := decoded.value;
    var summary := Describe(env);
    if summary.feeBump {
      return None;
    }
    if |summary.ops| >= 3 && summary.ops[0].BeginSponsoring? {
      r := ValidateSponsoredCallback(cfg, env.tx);
      return;
    }
    if |summary.ops| != 1 {
      return None;
    }
    var op := summary.ops[0];
    if summary.onboard.None? || cfg.router.None? || summary.onboard.value.router != cfg.router.value {
      return None;
    }
    var asset := FindBySac(cfg.assets, summary.onboard.value.sac);
    var holder := summary.onboard.value.holder;
    if asset.None? || holder == Account(cfg.relayer) {
      return None;
    }
    if op.source.Some? && op.source.value != summary.source {
      return None;
    }
    if holder == Account(summary.source) {
      return if summary.signatures == 0 then None else Some(Intent(asset.value, holder, false, OnboardKind));
    }
    if summary.source != cfg.relayer || summary.fee > cfg.maxFee {
      return None;
    }
    // address-credential entries are listed, so a hidden entry shows as a difference in count
    var listed := |op.auth| - CountSourceCredentials(op.auth);
    if |op.auth| != listed || AuthorizersOf(op.auth) - {holder} != {} {
      SomeForeignEntry(op.auth, holder);
      return None;
    }
    AllHoldersOwn(op.auth, holder);
    r := Some(Intent(asset.value, holder, true, OnboardKind));
  }

  function CountSourceCredentials(auth: seq<AuthEntry>): (n: nat)
    ensures n <= |auth|
    ensures n == 0 <==> forall i :: 0 <= i < |auth| ==> auth[i].AddressCredentials?
  {
    if auth == [] then 0
    else
      assert forall i :: 1 <= i < |auth| ==> auth[i] == auth[1..][i - 1];
      (if auth[0].SourceCredentials? then 1 else 0) + CountSourceCredentials(auth[1..])
  }

  lemma SomeForeignEntry(auth: seq<AuthEntry>, holder: Address)
    requires CountSourceCredentials(auth) != 0 || AuthorizersOf(auth) - {holder} != {}
    ensures exists e :: e in auth && e != AddressCredentials(holder)
  {
    if CountSourceCredentials(auth) != 0 {
      var i :| 0 <= i < |auth| && !auth[i].AddressCredentials?;
      assert auth[i] in auth;
    } else {
      var a :| a in AuthorizersOf(auth) - {holder};
      assert AddressCredentials(a) in auth;
    }
  }

  lemma AllHoldersOwn(auth: seq<AuthEntry>, holder: Address)
    requires CountSourceCredentials(auth) == 0 && AuthorizersOf(auth) - {holder} == {}
    ensures forall e :: e in auth ==> e == AddressCredentials(holder)
  {
    forall e | e in auth
      ensures e == AddressCredentials(holder)
    {
      assert e.AddressCredentials? && e.address in AuthorizersOf(auth);
      assert e.address !in AuthorizersOf(auth) - {holder};
    }
  }

  // ---- emitter and acceptor agree ---------------------------------------------------------

  /** The registry pins each asset and each SAC once. */
  predicate DistinctPins(assets: seq<OfficialAsset>) {
    forall i, j :: 0 <= i < j < |assets| ==>
      AssetIdOf(assets[i]) != AssetIdOf(assets[j]) && assets[i].sac != assets[j].sac
  }

  lemma {:induction false} PinFound(assets: seq<OfficialAsset>, asset: OfficialAsset)
    requires DistinctPins(assets) && asset in assets
    ensures FindByAsset(assets, AssetIdOf(asset)) == Some(asset) && FindBySac(assets, asset.sac) == Some(asset)
  {
    if assets[0] != asset {
      var j :| 0 <= j < |assets| && assets[j] == asset;
      assert assets[1..][j - 1] == asset;
      forall i, k | 0 <= i < k < |assets[1..]|
        ensures AssetIdOf(assets[1..][i]) != AssetIdOf(assets[1..][k]) && assets[1..][i].sac != assets[1..][k].sac
      {
        assert assets[1..][i] == assets[i + 1] && assets[1..][k] == assets[k + 1];
      }
      PinFound(assets[1..], asset);
      assert AssetIdOf(assets[0]) != AssetIdOf(assets[j]) && assets[0].sac != assets[j].sac;
    }
  }

  lemma SponsoredIsAccepted(cfg: Config, asset: OfficialAsset, holder: string, create: bool)
    requires DistinctPins(cfg.assets) && asset in cfg.assets && holder != cfg.relayer
    requires EmitSponsored(cfg, asset, holder, create).fee <= cfg.maxFee
    ensures var tx := HolderSigns(cfg, EmitSponsored(cfg, asset, holder, create), Account(holder));
            Accepted(cfg, Plain(tx), Intent(asset, Account(holder), true, SponsoredKind))
  {
    PinFound(cfg.assets, asset);
    var tx := HolderSigns(cfg, EmitSponsored(cfg, asset, holder, create), Account(holder));
    BuiltIsSafe(cfg.relayer, holder, AssetIdOf(asset), create, AsSponsor, tx.signatures);
    FirstTrustOfSafe(tx, cfg.relayer, holder, AssetIdOf(asset));
  }

  lemma OnboardIsAccepted(cfg: Config, asset: OfficialAsset, holder: Address, fee: int, auth: seq<AuthEntry>)
    requires DistinctPins(cfg.assets) && asset in cfg.assets && holder != Account(cfg.relayer) && cfg.router.Some?
    requires !asset.sac.Account?
    requires !holder.Account? ==> fee <= cfg.maxFee && forall e :: e in auth ==> e == AddressCredentials(holder)
    ensures var tx := HolderSigns(cfg, EmitOnboard(cfg, asset, holder, fee, auth), holder);
            Accepted(cfg, Plain(tx), Intent(asset, holder, !holder.Account?, OnboardKind))
  {
    PinFound(cfg.assets, asset);
  }

  /** With or without `pubkey`, the signer read off any onboarding envelope, whoever sources it, is the holder. */
  lemma SignerIsHolder(cfg: Config, sponsor: string, asset: OfficialAsset, holder: Address, create: bool, role: Role,
                       fee: int, auth: seq<AuthEntry>, signatures: seq<int>)
    requires cfg.router.Some? && !asset.sac.Account?
    ensures Sep7Signer(None, Describe(Plain(EmitOnboard(cfg, asset, holder, fee, auth)))) == holder
    ensures holder.Account? ==>
              var tx := SponsoredTx(sponsor, holder.key, AssetIdOf(asset), create, role).(signatures := signatures);
              forall named :: named == None || named == Some(holder.key) ==>
                && Sep7Signer(named, Describe(Plain(tx))) == holder
                && Sep7Signer(named, Describe(Plain(EmitOnboard(cfg, asset, holder, fee, auth)))) == holder
  {
  }

  lemma {:induction false} FirstSponsoredFinds(ops: seq<Op>)
    ensures FirstSponsored(ops).None? <==> forall o :: o in ops ==> !o.BeginSponsoring?
    ensures FirstSponsored(ops).Some? ==>
              exists i :: && 0 <= i < |ops| && ops[i].BeginSponsoring?
                          && ops[i].sponsoredId == FirstSponsored(ops).value
                          && forall j :: 0 <= j < i ==> !ops[j].BeginSponsoring?
  {
    if ops != [] {
      FirstSponsoredFinds(ops[1..]);
      assert forall o :: o in ops <==> o == ops[0] || o in ops[1..];
      if !ops[0].BeginSponsoring? && FirstSponsored(ops).Some? {
        var rest := ops[1..];
        var i :| && 0 <= i < |rest| && rest[i].BeginSponsoring?
                 && rest[i].sponsoredId == FirstSponsored(ops).value
                 && forall j :: 0 <= j < i ==> !rest[j].BeginSponsoring?;
        assert ops[i + 1] == rest[i] && forall j :: 1 <= j < i + 1 ==> ops[j] == rest[j - 1];
      }
    }
  }

  lemma {:induction false} FirstOtherFinds(ops: seq<Op>, source: string)
    ensures var first := FirstOtherSource(ops, source);
            if first.Some? then first.value != source && exists o :: o in ops && o.source == first
            else forall o :: o in ops && o.source.Some? ==> o.source.value == source
  {
    if ops != [] {
      FirstOtherFinds(ops[1..], source);
      assert forall o :: o in ops <==> o == ops[0] || o in ops[1..];
    }
  }

  /** A named key signs; else a router call's holder; else the account of the first sponsorship. */
  lemma SignerNamed(named: string, s: Summary, i: nat)
    ensures Sep7Signer(Some(named), s) == Account(named)
    ensures s.onboard.Some? ==> Sep7Signer(None, s) == s.onboard.value.holder
    ensures s.onboard.None? && i < |s.ops| && s.ops[i].BeginSponsoring?
            && (forall j :: 0 <= j < i ==> !s.ops[j].BeginSponsoring?) ==>
              Sep7Signer(None, s) == Account(s.ops[i].sponsoredId)
  {
    FirstSponsoredFinds(s.ops);
  }

  /** Of any other envelope the signer is the one account besides the source that an operation names, or the source. */
  lemma SignerOtherwise(s: Summary, k: string)
    requires s.onboard.None? && forall o :: o in s.ops ==> !o.BeginSponsoring?
    requires forall o :: o in s.ops && o.source.Some? ==> o.source.value == k || o.source.value == s.source
    ensures Sep7Signer(None, s) == Account(if exists o :: o in s.ops && o.source == Some(k) then k else s.source)
  {
    FirstSponsoredFinds(s.ops);
    FirstOtherFinds(s.ops, s.source);
    var others := set o | o in s.ops && o.source.Some? && o.source.value != s.source :: o.source.value;
    if exists o :: o in s.ops && o.source == Some(k) && k != s.source {
      assert others == {k};
    } else {
      assert others == {};
    }
  }

  /** When several accounts besides the source are named, nobody is singled out. */
  lemma SignerUndecided(s: Summary, o: Op, o': Op)
    requires s.onboard.None? && forall x :: x in s.ops ==> !x.BeginSponsoring?
    requires o in s.ops && o' in s.ops && o.source.Some? && o'.source.Some?
    requires o.source.value != o'.source.value && o.source.value != s.source && o'.source.value != s.source
    ensures Sep7Signer(None, s) == Account(s.source)
  {
    FirstSponsoredFinds(s.ops);
    var others := set x | x in s.ops && x.source.Some? && x.source.value != s.source :: x.source.value;
    var rest := others - {o.source.value};
    assert o'.source.value in rest && others == rest + {o.source.value};
    assert |others| >= 2;
  }

  // ---- signing once -----------------------------------------------------------------------

  /** Sign with the relayer key unless a signature with its hint is already there. */
  function Submitted(cfg: Config, tx: Tx, sign: bool): Tx {
    if sign && cfg.hint(cfg.relayer) !in tx.signatures
    then tx.(signatures := tx.signatures + [cfg.hint(cfg.relayer)]) else tx
  }

  /** Exactly one relayer signature on what is countersigned, none added otherwise. */
  lemma SignedOnce(cfg: Config, asset: OfficialAsset, holder: Address, create: bool, fee: int, auth: seq<AuthEntry>)
    requires cfg.router.Some?
    requires holder.Account? ==> cfg.hint(holder.key) != cfg.hint(cfg.relayer)
    ensures holder.Account? ==>
              var tx := HolderSigns(cfg, EmitSponsored(cfg, asset, holder.key, create), holder);
              Submitted(cfg, tx, true) == tx && multiset(tx.signatures)[cfg.hint(cfg.relayer)] == 1
    ensures var tx := HolderSigns(cfg, EmitOnboard(cfg, asset, holder, fee, auth), holder);
            multiset(Submitted(cfg, tx, !holder.Account?).signatures)[cfg.hint(cfg.relayer)]
            == if holder.Account? then 0 else 1
  {
    if !holder.Account? {
      var tx := HolderSigns(cfg, EmitOnboard(cfg, asset, holder, fee, auth), holder);
      assert Submitted(cfg, tx, true).signatures == [cfg.hint(cfg.relayer)];
    }
  }

  // ---- what acceptance can cost the relayer -----------------------------------------------

  lemma {:induction false} FirstTrustOfSafe(tx: Tx, sponsor: string, user: string, asset: AssetId)
    requires SafeToSponsor(tx, sponsor, user, asset)
    ensures FirstTrust(tx.ops) == Some(Line(asset))
  {
    FirstTrustFrom(tx, sponsor, user, asset, 0);
    assert tx.ops[0..] == tx.ops;
  }

  lemma {:induction false} FirstTrustFrom(tx: Tx, sponsor: string, user: string, asset: AssetId, i: nat)
    requires SafeToSponsor(tx, sponsor, user, asset) && i < |tx.ops|
    requires forall j :: 0 <= j < i ==> !tx.ops[j].ChangeTrust?
    ensures FirstTrust(tx.ops[i..]) == Some(Line(asset))
    decreases |tx.ops| - i
  {
    var k :| 1 <= k < |tx.ops| - 1 && OpensLine(tx.ops[k], tx, user, asset)
             && forall j :: 1 <= j < |tx.ops| - 1 && j != k ==> CreatesUser(tx.ops[j], tx, sponsor, user);
    if i < k {
      assert !tx.ops[i].ChangeTrust?;
      FirstTrustFrom(tx, sponsor, user, asset, i + 1);
      assert tx.ops[i..][1..] == tx.ops[i + 1..];
    } else {
      assert i == k;
    }
  }

  /**
   The bound on the open endpoint: whatever signed envelope anyone posts, if it is accepted as sponsored
   and succeeds, the relayer pays its capped fee and at most three base reserves, for a pinned asset.
   */
  lemma AcceptedSponsoredIsBounded(cfg: Config, l: Ledger, tx: Tx, intent: Intent)
    requires Accepted(cfg, Plain(tx), intent) && intent.kind.SponsoredKind?
    requires ExecTx(l, tx).Some?
    ensures intent.asset in cfg.assets && intent.holder.Account? && intent.holder.key != cfg.relayer
    ensures cfg.relayer in l.accounts && cfg.relayer in ExecTx(l, tx).value.accounts
    ensures var e, e' := l.accounts[cfg.relayer], ExecTx(l, tx).value.accounts[cfg.relayer];
            && e.balance - cfg.maxFee <= e'.balance
            && Available(e') >= Available(e) - cfg.maxFee - 3 * BASE_RESERVE
            && HoldsLine(ExecTx(l, tx).value, AssetIdOf(intent.asset), intent.holder.key)
  {
    SponsorshipIsBounded(l, tx, cfg.relayer, intent.holder.key, AssetIdOf(intent.asset));
    FoundIsPinned(cfg.assets, FirstTrust(tx.ops).value.asset);
  }

  /** A lookup finds a pin of that asset, or of that SAC, and fails only when there is none. */
  lemma {:induction false} FoundIsPinned(assets: seq<OfficialAsset>, id: AssetId)
    ensures FindByAsset(assets, id).Some? ==>
              FindByAsset(assets, id).value in assets && AssetIdOf(FindByAsset(assets, id).value) == id
    ensures FindByAsset(assets, id).None? ==> forall a :: a in assets ==> AssetIdOf(a) != id
  {
    if assets != [] {
      FoundIsPinned(assets[1..], id);
      assert forall a :: a in assets <==> a == assets[0] || a in assets[1..];
    }
  }

  lemma {:induction false} FoundSacIsPinned(assets: seq<OfficialAsset>, sac: Address)
    ensures FindBySac(assets, sac).Some? ==>
              FindBySac(assets, sac).value in assets && FindBySac(assets, sac).value.sac == sac
    ensures FindBySac(assets, sac).None? ==> forall a :: a in assets ==> a.sac != sac
  {
    if assets != [] {
      FoundSacIsPinned(assets[1..], sac);
      assert forall a :: a in assets <==> a == assets[0] || a in assets[1..];
    }
  }

  /** What an accepted router call says: one call of the pinned router, for a pinned SAC, by its holder. */
  predicate PinnedCall(cfg: Config, tx: Tx, asset: OfficialAsset, holder: Address) {
    && |tx.ops| == 1 && tx.ops[0].InvokeContract?
    && cfg.router == Some(tx.ops[0].contract) && tx.ops[0].function_ == "onboard"
    && tx.ops[0].args == [Reads(asset.sac), Reads(holder)]
    && asset in cfg.assets && !asset.sac.Account? && holder != Account(cfg.relayer)
    && (tx.ops[0].source.Some? ==> tx.ops[0].source.value == tx.source)
  }

  /** The summary's router call is exactly a lone `onboard` with two address arguments, the first a contract's. */
  lemma OnboardOfExactly(ops: seq<Op>, call: OnboardCall)
    ensures OnboardOf(ops) == Some(call) <==>
              && |ops| == 1 && ops[0].InvokeContract? && ops[0].function_ == "onboard"
              && ops[0].contract == call.router && ops[0].args == [Reads(call.sac), Reads(call.holder)]
              && !call.sac.Account?
  {
  }

  /** The accepted router calls: sourced and signed by the holder, or paid on the holder's own credentials alone. */
  lemma RouterCallsExactly(cfg: Config, tx: Tx, intent: Intent)
    requires DistinctPins(cfg.assets)
    ensures OnboardAccepted(cfg, tx) == Some(intent) <==>
              && PinnedCall(cfg, tx, intent.asset, intent.holder) && intent.kind.OnboardKind?
              && if intent.holder == Account(tx.source) then !intent.countersign && tx.signatures != []
                 else intent.countersign && tx.source == cfg.relayer && tx.fee <= cfg.maxFee
                      && forall e :: e in tx.ops[0].auth ==> e == AddressCredentials(intent.holder)
  {
    var call := OnboardOf(tx.ops);
    if call.Some? {
      OnboardOfExactly(tx.ops, call.value);
      FoundSacIsPinned(cfg.assets, call.value.sac);
    }
    if PinnedCall(cfg, tx, intent.asset, intent.holder) {
      OnboardOfExactly(tx.ops, OnboardCall(cfg.router.value, intent.asset.sac, intent.holder));
      PinFound(cfg.assets, intent.asset);
    }
    hide OnboardOf;
    hide FindBySac;
    hide DistinctPins;
  }

  /** The accepted sandwiches: vetted for a pinned asset, paid by the relayer within its cap, signed by the holder. */
  lemma SandwichesExactly(cfg: Config, tx: Tx, intent: Intent)
    requires DistinctPins(cfg.assets)
    ensures SponsoredAccepted(cfg, tx, intent) <==>
              && intent.kind.SponsoredKind? && intent.countersign && intent.asset in cfg.assets
              && intent.holder.Account? && intent.holder.key != cfg.relayer
              && tx.source == cfg.relayer && tx.fee <= cfg.maxFee
              && cfg.hint(intent.holder.key) in tx.signatures
              && SafeToSponsor(tx, cfg.relayer, intent.holder.key, AssetIdOf(intent.asset))
  {
    var id := AssetIdOf(intent.asset);
    var trust := FirstTrust(tx.ops);
    FoundIsPinned(cfg.assets, if trust.Some? && trust.value.Line? then trust.value.asset else id);
    if intent.asset in cfg.assets {
      PinFound(cfg.assets, intent.asset);
    }
    if intent.holder.Account? && SafeToSponsor(tx, cfg.relayer, intent.holder.key, id) {
      FirstTrustOfSafe(tx, cfg.relayer, intent.holder.key, id);
      SafeBegins(tx, cfg.relayer, intent.holder.key, id);
    }
    if |tx.ops| >= 3 && tx.ops[0].BeginSponsoring? && SafeToSponsor(tx, cfg.relayer, tx.ops[0].sponsoredId, id) {
      FirstTrustOfSafe(tx, cfg.relayer, tx.ops[0].sponsoredId, id);
    }
    hide SafeToSponsor;
    hide FirstTrust;
    hide FindByAsset;
    hide DistinctPins;
  }

  /** What is accepted is one of the two, never a fee bump, and the dispatch on the shape loses none. */
  lemma AcceptedExactly(cfg: Config, env: Envelope, intent: Intent)
    ensures Accepted(cfg, env, intent) <==>
              && env.Plain?
              && (SponsoredAccepted(cfg, env.tx, intent) || OnboardAccepted(cfg, env.tx) == Some(intent))
  {
    hide SafeToSponsor;
    hide FirstTrust;
    hide FindByAsset;
    hide FindBySac;
  }

  lemma SafeBegins(tx: Tx, sponsor: string, user: string, asset: AssetId)
    requires SafeToSponsor(tx, sponsor, user, asset)
    ensures |tx.ops| >= 3 && tx.ops[0].BeginSponsoring? && tx.ops[0].sponsoredId == user
  {
  }

  /**
   Once submitted, an accepted sandwich carries the hints of all it needs, the relayer and the holder; a
   countersigned router call needs the relayer, whose hint it carries, and the holder's entries.
   */
  lemma SubmittedIsSigned(cfg: Config, tx: Tx, intent: Intent)
    requires Accepted(cfg, Plain(tx), intent) && intent.countersign
    ensures cfg.hint(cfg.relayer) in Submitted(cfg, tx, true).signatures
    ensures SignersNeeded(Plain(tx)) <= {Account(cfg.relayer), intent.holder}
    ensures intent.kind.SponsoredKind? ==> cfg.hint(intent.holder.key) in Submitted(cfg, tx, true).signatures
  {
    if intent.kind.SponsoredKind? {
      SandwichSigners(tx, cfg.relayer, intent.holder.key, AssetIdOf(intent.asset));
    } else {
      EntriesOrSource(tx);
    }
  }

  lemma SandwichSigners(tx: Tx, sponsor: string, user: string, asset: AssetId)
    requires SafeToSponsor(tx, sponsor, user, asset)
    ensures SignersNeeded(Plain(tx)) <= {Account(sponsor), Account(user)}
  {
    forall o | o in tx.ops
      ensures !o.InvokeContract? && (o.source.Some? ==> o.source.value == sponsor || o.source.value == user)
    {
      var j :| 0 <= j < |tx.ops| && tx.ops[j] == o;
      if 1 <= j < |tx.ops| - 1 {
        MiddleOps(tx, sponsor, user, asset, j);
      }
    }
  }

  lemma EntriesOrSource(tx: Tx)
    requires |tx.ops| == 1 && tx.ops[0].InvokeContract?
    requires tx.ops[0].source.Some? ==> tx.ops[0].source.value == tx.source
    ensures SignersNeeded(Plain(tx)) == {Account(tx.source)} + AuthorizersOf(tx.ops[0].auth)
  {
    assert forall o :: o in tx.ops <==> o == tx.ops[0];
    assert forall a :: a in AuthorizersOf(tx.ops[0].auth) ==> a in SignersOfOps(tx.ops);
  }

  /** A router call is accepted for the relayer's signature only on the holder's own credentials. */
  lemma CountersignedOnboard(cfg: Config, env: Envelope, intent: Intent)
    requires Accepted(cfg, env, intent) && intent.kind.OnboardKind?
    ensures PinnedCall(cfg, env.tx, intent.asset, intent.holder)
    ensures OnboardOf(env.tx.ops) == Some(OnboardCall(cfg.router.value, intent.asset.sac, intent.holder))
    ensures intent.countersign ==>
              && env.tx.source == cfg.relayer && env.tx.fee <= cfg.maxFee
              && SourceOf(env.tx.ops[0], env.tx) == cfg.relayer
              && forall e :: e in env.tx.ops[0].auth ==> e == AddressCredentials(intent.holder)
    ensures !intent.countersign ==> Account(env.tx.source) == intent.holder
  {
    FoundSacIsPinned(cfg.assets, OnboardOf(env.tx.ops).value.sac);
    OnboardOfExactly(env.tx.ops, OnboardOf(env.tx.ops).value);
  }
}
