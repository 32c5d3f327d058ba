/**
 The onboarding protocol end to end: the relayer diagnoses the holder, hands out at most one envelope
 to sign, takes it back at the callback, submits it, and authorizes where a sponsored line still needs
 it. Everything runs on the ledger with the router and the authorizer as they are.
 */
module CaseProtocol {
  import opened Wrappers
  import opened StellarLedger
  import opened Sponsorship
  import opened Relayer
  import Auth = Authorizer
  import Router

  type World = Auth.World

  /** What the network charges for the relayer's own Soroban calls and for the router call. */
  datatype Fees = Fees(authorizeFee: int, onboardFee: int, seqno: nat)

  /** The answer of the request route: nothing to do, done without the user, or one envelope to sign. */
  datatype Answer = AlreadyReady | AuthorizedNow(world: World) | SignThis(tx: Tx) | Refused

  /** The relayer submits `authorize_trustline`: it pays the fee, anyone may call. */
  function SubmitAuthorize(cfg: Config, fees: Fees, w: World, holder: Address): Option<World> {
    match PayFee(w.ledger, cfg.relayer, fees.authorizeFee)
    case None => None
    case Some(l) =>
      var (w', r) := Auth.Apply(w.(ledger := l), Auth.AuthorizeTrustline(holder), {}, fees.seqno);
      if r.Ok? then Some(w') else None
  }

  /** Submit an accepted envelope: the sandwich applies under CAP-33, the router call runs whatever the SAC admin is. */
  function SubmitAccepted(w: World, code: Router.AuthorizerCode, tx: Tx, intent: Intent): Option<World> {
    if intent.kind.SponsoredKind? then
      match ExecTx(w.ledger, tx)
      case None => None
      case Some(l) => Some(w.(ledger := l))
    else
      match (PayFee(w.ledger, tx.source, tx.fee), OnboardOf(tx.ops))
      case (Some(l), Some(call)) =>
        var (w', r) := Router.Onboard(w.(ledger := l), code, call.sac, call.holder, true);
        if Router.IsOk(r) then Some(w') else None
      case _ => None
  }

  function HandleRequest(cfg: Config, fees: Fees, w: World, asset: OfficialAsset, holder: Address, auth: seq<AuthEntry>)
    : Answer
  {
    match DiagnoseCase(asset, ReadView(w.ledger, asset, holder))
    case Ready => AlreadyReady
    case CaseA =>
      (match SubmitAuthorize(cfg, fees, w, holder)
       case None => Refused
       case Some(w') => AuthorizedNow(w'))
    case CaseB(create) =>
      if holder.Account? then SignThis(EmitSponsored(cfg, asset, holder.key, create)) else Refused
    case CaseC => if cfg.router.Some? then SignThis(EmitOnboard(cfg, asset, holder, fees.onboardFee, auth)) else Refused
  }

  /** What the router finds behind the SAC admin when that is the Trustline Authorizer. */
  function ThisAuthorizer(fees: Fees, holder: Address): Router.AuthorizerCode {
    Router.AuthorizerAt(holder, fees.seqno)
  }

  /** The callback: idempotent for a ready holder, otherwise submit and finish a sponsored regulated line. */
  function HandleCallback(cfg: Config, fees: Fees, w: World, code: Router.AuthorizerCode, tx: Tx, intent: Intent)
    : Option<World>
  {
    if IsReady(w.ledger, intent.asset, intent.holder) then Some(w)
    else
      match SubmitAccepted(w, code, Submitted(cfg, tx, intent.countersign), intent)
      case None => None
      case Some(w') =>
        if intent.kind.SponsoredKind? && intent.asset.authorizer.Some?
        then SubmitAuthorize(cfg, fees, w', intent.holder) else Some(w')
  }

  // ---- the world the protocol is promised on ----------------------------------------------

  /** The pin describes the ledger: the SAC is deployed, and an authorizer that is named is its SAC admin. */
  predicate PinMatchesLedger(cfg: Config, w: World, asset: OfficialAsset) {
    && asset in cfg.assets && DistinctPins(cfg.assets) && cfg.router.Some?
    && asset.sac == SacOf(AssetIdOf(asset)) && IsSac(w.ledger, asset.sac)
    && match asset.authorizer
       case None => true
       case Some(a) => a == w.self && w.self.Contract? && w.self in w.ledger.wasm && w.storage.sac == asset.sac
                       && AssetOf(w.ledger, asset.sac).admin == w.self
  }

  /**
   The policy admits the holder. Without an authorizer a contract is ready only if the SAC says so already,
   and a classic holder gets its line: the issuer authorizes it by hand, so no contract may stand in as SAC
   admin and refuse the router.
   */
  predicate HolderAdmitted(w: World, asset: OfficialAsset, holder: Address) {
    match asset.authorizer
    case Some(_) => Auth.Eligible(w, holder)
    case None =>
      if holder.Account? then
        DiagnoseCase(asset, ReadView(w.ledger, asset, holder)).CaseC? && IsSac(w.ledger, asset.sac)
        && AssetOf(w.ledger, asset.sac).authRequired ==>
          ExecutableOf(w.ledger, AssetOf(w.ledger, asset.sac).admin) != Some(Executable.Wasm)
      else AuthorizedView(w.ledger, asset.sac, holder) == Some(true)
  }

  /** Enough XLM: the relayer for its fees and three reserves, a Case C holder for its own line. */
  predicate Funded(cfg: Config, fees: Fees, w: World, asset: OfficialAsset, holder: Address) {
    && 0 <= fees.authorizeFee && 0 <= fees.onboardFee
    && cfg.relayer in w.ledger.accounts
    && Available(w.ledger.accounts[cfg.relayer])
       >= 3 * BASE_RESERVE + 4 * BASE_FEE + fees.authorizeFee + fees.onboardFee
    && (holder.Account? && DiagnoseCase(asset, ReadView(w.ledger, asset, holder)).CaseC? ==>
          holder.key in w.ledger.accounts && Available(w.ledger.accounts[holder.key]) >= BASE_RESERVE + fees.onboardFee)
  }

  predicate HolderKnown(cfg: Config, asset: OfficialAsset, holder: Address) {
    && holder != Account(cfg.relayer) && holder != Account(asset.issuer)
  }

  // ---- steps ------------------------------------------------------------------------------

  lemma FeeKeepsAssets(l: Ledger, payer: string, fee: int)
    requires payer in l.accounts && 0 <= fee <= Available(l.accounts[payer])
    ensures PayFee(l, payer, fee).Some?
    ensures var l' := PayFee(l, payer, fee).value;
            && l'.assets == l.assets && l'.wasm == l.wasm && l'.accounts.Keys == l.accounts.Keys
            && (forall k :: k in l.accounts && k != payer ==> l'.accounts[k] == l.accounts[k])
            && Available(l'.accounts[payer]) == Available(l.accounts[payer]) - fee
  {
  }

  lemma AuthorizeMakesReady(cfg: Config, fees: Fees, w: World, asset: OfficialAsset, holder: Address)
    requires PinMatchesLedger(cfg, w, asset) && asset.authorizer.Some? && HolderKnown(cfg, asset, holder)
    requires Auth.Eligible(w, holder)
    requires holder.Account? ==> holder.key in w.ledger.accounts && HasLine(w.ledger, asset.sac, holder)
    requires cfg.relayer in w.ledger.accounts && 0 <= fees.authorizeFee <= Available(w.ledger.accounts[cfg.relayer])
    ensures SubmitAuthorize(cfg, fees, w, holder).Some?
    ensures IsReady(SubmitAuthorize(cfg, fees, w, holder).value.ledger, asset, holder)
  {
    FeeKeepsAssets(w.ledger, cfg.relayer, fees.authorizeFee);
    var w1 := w.(ledger := PayFee(w.ledger, cfg.relayer, fees.authorizeFee).value);
    assert Auth.CanSet(w1, holder, true);
  }

  lemma SponsoredMakesReady(cfg: Config, fees: Fees, w: World, asset: OfficialAsset, holder: string)
    requires PinMatchesLedger(cfg, w, asset) && HolderKnown(cfg, asset, Account(holder))
    requires HolderAdmitted(w, asset, Account(holder)) && Funded(cfg, fees, w, asset, Account(holder))
    requires !IsReady(w.ledger, asset, Account(holder))
    requires !(holder in w.ledger.accounts && HoldsLine(w.ledger, AssetIdOf(asset), holder))
    ensures var create := holder !in w.ledger.accounts;
            var tx := HolderSigns(cfg, EmitSponsored(cfg, asset, holder, create), Account(holder));
            var end := HandleCallback(cfg, fees, w, ThisAuthorizer(fees, Account(holder)), tx,
                                      Intent(asset, Account(holder), true, SponsoredKind));
            end.Some? && IsReady(end.value.ledger, asset, Account(holder))
  {
    var create := holder !in w.ledger.accounts;
    var tx := HolderSigns(cfg, EmitSponsored(cfg, asset, holder, create), Account(holder));
    assert Submitted(cfg, tx, true) == tx;
    var id := AssetIdOf(asset);
    BuiltExecutes(w.ledger, cfg.relayer, holder, id, AsSponsor, tx.signatures);
    BuiltIsSafe(cfg.relayer, holder, id, create, AsSponsor, tx.signatures);
    SponsorshipIsBounded(w.ledger, tx, cfg.relayer, holder, id);
    var w1 := w.(ledger := ExecTx(w.ledger, tx).value);
    if asset.authorizer.Some? {
      AuthorizeMakesReady(cfg, fees, w1, asset, Account(holder));
    }
  }

  /** For a classic holder with an account, and for a contract, the SAC's view decides readiness. */
  lemma ViewMakesReady(l: Ledger, asset: OfficialAsset, holder: Address)
    requires asset.sac == SacOf(AssetIdOf(asset)) && holder != Account(asset.issuer)
    requires holder.Account? ==> holder.key in l.accounts
    requires AuthorizedView(l, asset.sac, holder) == Some(true)
    ensures IsReady(l, asset, holder)
  {
  }

  lemma OnboardSucceeds(fees: Fees, w: World, asset: OfficialAsset, holder: Address)
    requires asset.sac == SacOf(AssetIdOf(asset)) && IsSac(w.ledger, asset.sac) && Auth.Eligible(w, holder)
    requires w.self.Contract? && w.self in w.ledger.wasm && w.storage.sac == asset.sac
    requires AssetOf(w.ledger, asset.sac).admin == w.self
    requires holder != Account(asset.issuer)
    requires holder.Account? ==>
               holder.key in w.ledger.accounts && Available(w.ledger.accounts[holder.key]) >= BASE_RESERVE
    ensures var (w', r) := Router.OnboardHere(w, asset.sac, holder, true, fees.seqno);
            && r.Authorized?
            && AuthorizedView(w'.ledger, asset.sac, holder) == Some(true)
            && (holder.Account? ==> holder.key in w'.ledger.accounts)
  {
    assert TryTrust(w.ledger, asset.sac, holder).Some?;
    Router.AfterTrust(w.ledger, asset.sac, holder);
    Router.OnboardFollowsPolicy(w, asset.sac, holder, fees.seqno);
    Router.Truthful(w, Router.AuthorizerAt(holder, fees.seqno), asset.sac, holder, true);
  }

  /** Without an authorizer the router still opens a classic holder's line, authorized or not. */
  lemma LineOpens(w: World, code: Router.AuthorizerCode, asset: OfficialAsset, holder: string)
    requires asset.sac == SacOf(AssetIdOf(asset)) && IsSac(w.ledger, asset.sac) && asset.authorizer.None?
    requires AssetOf(w.ledger, asset.sac).authRequired ==>
               ExecutableOf(w.ledger, AssetOf(w.ledger, asset.sac).admin) != Some(Executable.Wasm)
    requires Account(holder) != Account(asset.issuer) && !HasLine(w.ledger, asset.sac, Account(holder))
    requires holder in w.ledger.accounts && Available(w.ledger.accounts[holder]) >= BASE_RESERVE
    ensures var (w', r) := Router.Onboard(w, code, asset.sac, Account(holder), true);
            Router.IsOk(r) && IsReady(w'.ledger, asset, Account(holder))
  {
    var l1 := TryTrust(w.ledger, asset.sac, Account(holder)).value;
    Router.AfterTrust(w.ledger, asset.sac, Account(holder));
    assert HoldsLine(l1, AssetIdOf(asset), holder) && holder in l1.accounts;
  }

  /** The router's part of Case C, once the fee is paid. */
  lemma RouterMakesReady(cfg: Config, fees: Fees, w: World, w1: World, asset: OfficialAsset, holder: Address)
    requires PinMatchesLedger(cfg, w, asset) && HolderKnown(cfg, asset, holder) && HolderAdmitted(w, asset, holder)
    requires DiagnoseCase(asset, ReadView(w.ledger, asset, holder)).CaseC?
    requires w1 == w.(ledger := w1.ledger) && w1.ledger.assets == w.ledger.assets && w1.ledger.wasm == w.ledger.wasm
    requires holder.Account? ==>
               holder.key in w1.ledger.accounts && Available(w1.ledger.accounts[holder.key]) >= BASE_RESERVE
    ensures var (w', r) := Router.Onboard(w1, ThisAuthorizer(fees, holder), asset.sac, holder, true);
            Router.IsOk(r) && IsReady(w'.ledger, asset, holder)
  {
    CaseCIsNotReady(w.ledger, asset, holder);
    assert IsSac(w1.ledger, asset.sac) && AssetOf(w1.ledger, asset.sac) == AssetOf(w.ledger, asset.sac);
    assert AuthorizedView(w1.ledger, asset.sac, holder) == AuthorizedView(w.ledger, asset.sac, holder);
    hide IsReady;
    hide ReadView;
    hide AuthorizedView;
    hide Router.Onboard;
    hide Router.AuthorizerAt;
    if asset.authorizer.Some? {
      OnboardSucceeds(fees, w1, asset, holder);
      ViewMakesReady(Router.OnboardHere(w1, asset.sac, holder, true, fees.seqno).0.ledger, asset, holder);
    } else {
      LineOpens(w1, ThisAuthorizer(fees, holder), asset, holder.key);
    }
  }

  lemma OnboardMakesReady(cfg: Config, fees: Fees, w: World, asset: OfficialAsset, holder: Address,
                          auth: seq<AuthEntry>)
    requires PinMatchesLedger(cfg, w, asset) && HolderKnown(cfg, asset, holder)
    requires HolderAdmitted(w, asset, holder) && Funded(cfg, fees, w, asset, holder)
    requires DiagnoseCase(asset, ReadView(w.ledger, asset, holder)).CaseC?
    ensures var tx := HolderSigns(cfg, EmitOnboard(cfg, asset, holder, fees.onboardFee, auth), holder);
            var end := HandleCallback(cfg, fees, w, ThisAuthorizer(fees, holder), tx,
                                      Intent(asset, holder, !holder.Account?, OnboardKind));
            end.Some? && IsReady(end.value.ledger, asset, holder)
  {
    hide IsReady;
    hide ReadView;
    hide Router.Onboard;
    hide ThisAuthorizer;
    hide HolderAdmitted;
    var tx := HolderSigns(cfg, EmitOnboard(cfg, asset, holder, fees.onboardFee, auth), holder);
    CaseCIsNotReady(w.ledger, asset, holder);
    FeeKeepsAssets(w.ledger, tx.source, tx.fee);
    var w1 := w.(ledger := PayFee(w.ledger, tx.source, tx.fee).value);
    RouterMakesReady(cfg, fees, w, w1, asset, holder);
  }

  lemma CaseCIsNotReady(l: Ledger, asset: OfficialAsset, holder: Address)
    requires DiagnoseCase(asset, ReadView(l, asset, holder)).CaseC?
    ensures !IsReady(l, asset, holder)
    ensures holder.Account? ==> holder.key in l.accounts && !HoldsLine(l, AssetIdOf(asset), holder.key)
    ensures !holder.Account? ==> AuthorizedView(l, asset.sac, holder) != Some(true)
  {
  }

  // ---- the protocol -----------------------------------------------------------------------

  /** The user's part: nothing, or one signature on the envelope handed out, returned to the callback. */
  datatype End = End(world: World, userSignatures: nat)

  ghost predicate RunsTo(cfg: Config, fees: Fees, w: World, asset: OfficialAsset, holder: Address,
                         auth: seq<AuthEntry>, end: End)
  {
    match HandleRequest(cfg, fees, w, asset, holder, auth)
    case AlreadyReady => end == End(w, 0)
    case AuthorizedNow(w') => end == End(w', 0)
    case SignThis(tx) =>
      exists intent: Intent ::
        && Accepted(cfg, Plain(HolderSigns(cfg, tx, holder)), intent)
        && HandleCallback(cfg, fees, w, ThisAuthorizer(fees, holder), HolderSigns(cfg, tx, holder), intent)
           == Some(end.world)
        && end.userSignatures == 1
    case Refused => false
  }

  /** A request answered with an envelope runs through the callback once the signed envelope is accepted. */
  lemma SignedRuns(cfg: Config, fees: Fees, w: World, asset: OfficialAsset, holder: Address, auth: seq<AuthEntry>,
                   tx: Tx, intent: Intent)
    requires HandleRequest(cfg, fees, w, asset, holder, auth) == SignThis(tx)
    requires Accepted(cfg, Plain(HolderSigns(cfg, tx, holder)), intent)
    requires HandleCallback(cfg, fees, w, ThisAuthorizer(fees, holder), HolderSigns(cfg, tx, holder), intent).Some?
    ensures var end := HandleCallback(cfg, fees, w, ThisAuthorizer(fees, holder), HolderSigns(cfg, tx, holder), intent);
            RunsTo(cfg, fees, w, asset, holder, auth, End(end.value, 1))
  {
    hide HandleRequest;
    hide HandleCallback;
    hide Accepted;
    hide HolderSigns;
  }

  lemma SponsoredRuns(cfg: Config, fees: Fees, w: World, asset: OfficialAsset, holder: Address, auth: seq<AuthEntry>)
    requires PinMatchesLedger(cfg, w, asset) && HolderKnown(cfg, asset, holder)
    requires HolderAdmitted(w, asset, holder) && Funded(cfg, fees, w, asset, holder)
    requires 4 * BASE_FEE <= cfg.maxFee
    requires DiagnoseCase(asset, ReadView(w.ledger, asset, holder)).CaseB?
    ensures exists end ::
              RunsTo(cfg, fees, w, asset, holder, auth, end) && IsReady(end.world.ledger, asset, holder)
              && end.userSignatures == 1
  {
    hide HandleCallback;
    hide HolderAdmitted;
    hide Funded;
    hide RunsTo;
    hide HolderSigns;
    var create := holder.key !in w.ledger.accounts;
    var tx := EmitSponsored(cfg, asset, holder.key, create);
    SponsoredIsAccepted(cfg, asset, holder.key, create);
    SponsoredMakesReady(cfg, fees, w, asset, holder.key);
    SignedRuns(cfg, fees, w, asset, holder, auth, tx, Intent(asset, holder, true, SponsoredKind));
  }

  lemma OnboardRuns(cfg: Config, fees: Fees, w: World, asset: OfficialAsset, holder: Address, auth: seq<AuthEntry>)
    requires PinMatchesLedger(cfg, w, asset) && HolderKnown(cfg, asset, holder)
    requires HolderAdmitted(w, asset, holder) && Funded(cfg, fees, w, asset, holder)
    requires !holder.Account? ==>
               fees.onboardFee <= cfg.maxFee && forall e :: e in auth ==> e == AddressCredentials(holder)
    requires DiagnoseCase(asset, ReadView(w.ledger, asset, holder)).CaseC?
    ensures exists end ::
              RunsTo(cfg, fees, w, asset, holder, auth, end) && IsReady(end.world.ledger, asset, holder)
              && end.userSignatures == 1
  {
    hide HandleCallback;
    hide HolderAdmitted;
    hide Funded;
    hide RunsTo;
    hide HolderSigns;
    hide ReadView;
    hide DiagnoseCase;
    OnboardIsAccepted(cfg, asset, holder, fees.onboardFee, auth);
    OnboardMakesReady(cfg, fees, w, asset, holder, auth);
    SignedRuns(cfg, fees, w, asset, holder, auth, EmitOnboard(cfg, asset, holder, fees.onboardFee, auth),
               Intent(asset, holder, !holder.Account?, OnboardKind));
  }

  lemma AuthorizeRuns(cfg: Config, fees: Fees, w: World, asset: OfficialAsset, holder: Address, auth: seq<AuthEntry>)
    requires PinMatchesLedger(cfg, w, asset) && HolderKnown(cfg, asset, holder)
    requires HolderAdmitted(w, asset, holder) && Funded(cfg, fees, w, asset, holder)
    requires DiagnoseCase(asset, ReadView(w.ledger, asset, holder)).CaseA?
    ensures exists end ::
              RunsTo(cfg, fees, w, asset, holder, auth, end) && IsReady(end.world.ledger, asset, holder)
              && end.userSignatures == 0
  {
    AuthorizeMakesReady(cfg, fees, w, asset, holder);
    hide SubmitAuthorize;
    hide IsReady;
    assert RunsTo(cfg, fees, w, asset, holder, auth, End(SubmitAuthorize(cfg, fees, w, holder).value, 0));
  }

  /**
   From any ledger the promise is made on, the protocol ends with the holder ready: no signature when
   it was ready or only lacked authorization, one signature otherwise.
   */
  lemma ProtocolReachesReady(cfg: Config, fees: Fees, w: World, asset: OfficialAsset, holder: Address,
                             auth: seq<AuthEntry>)
    requires PinMatchesLedger(cfg, w, asset) && HolderKnown(cfg, asset, holder)
    requires HolderAdmitted(w, asset, holder) && Funded(cfg, fees, w, asset, holder)
    requires 4 * BASE_FEE <= cfg.maxFee
    requires !holder.Account? ==>
               fees.onboardFee <= cfg.maxFee && forall e :: e in auth ==> e == AddressCredentials(holder)
    ensures exists end ::
              && RunsTo(cfg, fees, w, asset, holder, auth, end)
              && IsReady(end.world.ledger, asset, holder)
              && end.userSignatures == match DiagnoseCase(asset, ReadView(w.ledger, asset, holder))
                                       case Ready => 0 case CaseA => 0 case _ => 1
  {
    hide ReadView;
    hide HolderAdmitted;
    hide Funded;
    hide PinMatchesLedger;
    match DiagnoseCase(asset, ReadView(w.ledger, asset, holder)) {
      case Ready =>
        CasesAreExhaustive(asset, ReadView(w.ledger, asset, holder));
        assert RunsTo(cfg, fees, w, asset, holder, auth, End(w, 0));
      case CaseA => AuthorizeRuns(cfg, fees, w, asset, holder, auth);
      case CaseB(_) => SponsoredRuns(cfg, fees, w, asset, holder, auth);
      case CaseC => OnboardRuns(cfg, fees, w, asset, holder, auth);
    }
  }

  // ---- the two routes, branch by branch ---------------------------------------------------

  /** What the request route answers, for every holder: which case leads where, and what is handed out to sign. */
  lemma RequestExactly(cfg: Config, fees: Fees, w: World, asset: OfficialAsset, holder: Address, auth: seq<AuthEntry>)
    ensures var answer := HandleRequest(cfg, fees, w, asset, holder, auth);
            var diagnosis := DiagnoseCase(asset, ReadView(w.ledger, asset, holder));
            && (answer.AlreadyReady? <==> IsReady(w.ledger, asset, holder))
            && (answer.AuthorizedNow? <==> diagnosis.CaseA? && SubmitAuthorize(cfg, fees, w, holder).Some?)
            && (answer.AuthorizedNow? ==> SubmitAuthorize(cfg, fees, w, holder) == Some(answer.world))
            && (answer.SignThis? <==> diagnosis.CaseB? || (diagnosis.CaseC? && cfg.router.Some?))
            && (diagnosis.CaseB? ==>
                  holder.Account? && IsSandwichFor(cfg, answer.tx, asset, holder.key, diagnosis.createAccount))
            && (answer.SignThis? && diagnosis.CaseC? ==>
                  IsCallFor(cfg, answer.tx, asset, holder) && answer.tx.fee == fees.onboardFee)
  {
    CasesAreExhaustive(asset, ReadView(w.ledger, asset, holder));
    hide SubmitAuthorize;
    hide ComputeReady;
    if DiagnoseCase(asset, ReadView(w.ledger, asset, holder)).CaseB? {
      CaseBIsClassic(w.ledger, asset, holder);
      EmittedSandwich(cfg, asset, holder.key, true);
      EmittedSandwich(cfg, asset, holder.key, false);
    }
    hide ReadView;
    hide EmitSponsored;
    hide IsSandwichFor;
  }

  /** The sponsored envelope: the relayer's, signed by it alone, creating the account when asked to. */
  ghost predicate IsSandwichFor(cfg: Config, tx: Tx, asset: OfficialAsset, holder: string, create: bool) {
    && tx.source == cfg.relayer && tx.signatures == [cfg.hint(cfg.relayer)]
    && OnboardingShape(tx.ops) && |tx.ops| == (if create then 4 else 3) && tx.fee == 100 * |tx.ops|
    && SafeToSponsor(tx, cfg.relayer, holder, AssetIdOf(asset))
  }

  /** The router call: unsigned, sourced by a classic holder and by the relayer for a contract. */
  predicate IsCallFor(cfg: Config, tx: Tx, asset: OfficialAsset, holder: Address)
    requires cfg.router.Some?
  {
    && tx.source == (if holder.Account? then holder.key else cfg.relayer) && tx.signatures == []
    && |tx.ops| == 1 && tx.ops[0].InvokeContract? && tx.ops[0].source.None?
    && tx.ops[0].contract == cfg.router.value && tx.ops[0].function_ == "onboard"
    && tx.ops[0].args == [Reads(asset.sac), Reads(holder)]
  }

  lemma EmittedSandwich(cfg: Config, asset: OfficialAsset, holder: string, create: bool)
    ensures IsSandwichFor(cfg, EmitSponsored(cfg, asset, holder, create), asset, holder, create)
  {
    BuiltIsSafe(cfg.relayer, holder, AssetIdOf(asset), create, AsSponsor, [cfg.hint(cfg.relayer)]);
    hide SafeToSponsor;
  }

  lemma CaseBIsClassic(l: Ledger, asset: OfficialAsset, holder: Address)
    requires DiagnoseCase(asset, ReadView(l, asset, holder)).CaseB?
    ensures holder.Account?
  {
  }

  /**
   When the callback fails and what it leaves: a ready holder costs nothing, and otherwise both submissions
   that the kind of envelope asks for must succeed, the second on what the first left.
   */
  lemma CallbackExactly(cfg: Config, fees: Fees, w: World, code: Router.AuthorizerCode, tx: Tx, intent: Intent)
    ensures var sent := SubmitAccepted(w, code, Submitted(cfg, tx, intent.countersign), intent);
            var finishes := intent.kind.SponsoredKind? && intent.asset.authorizer.Some?;
            var end := HandleCallback(cfg, fees, w, code, tx, intent);
            && (IsReady(w.ledger, intent.asset, intent.holder) ==> end == Some(w))
            && (!IsReady(w.ledger, intent.asset, intent.holder) ==>
                  && (end.Some? <==>
                        sent.Some? && (finishes ==> SubmitAuthorize(cfg, fees, sent.value, intent.holder).Some?))
                  && (end.Some? ==>
                        end == if finishes then SubmitAuthorize(cfg, fees, sent.value, intent.holder) else sent))
  {
    hide IsReady;
    hide SubmitAccepted;
    hide SubmitAuthorize;
  }

  // ---- what the callback's answer means ---------------------------------------------------

  /** The holder's line as it is, or as a fresh one would be. */
  predicate LineAuthorized(l: Ledger, sac: Address, holder: Address)
    requires IsSac(l, sac)
  {
    AuthorizedView(l, sac, holder).GetOr(!AssetOf(l, sac).authRequired)
  }

  /** The pin names the asset's deployed SAC and, if any authorizer, the one modelled. */
  predicate PinIsRight(w: World, asset: OfficialAsset) {
    && asset.sac == SacOf(AssetIdOf(asset)) && IsSac(w.ledger, asset.sac)
    && (asset.authorizer.Some? ==> asset.authorizer.value == w.self)
  }

  lemma FeeKeepsContracts(l: Ledger, payer: string, fee: int, sac: Address, holder: Address)
    requires IsSac(l, sac) && PayFee(l, payer, fee).Some?
    ensures var l' := PayFee(l, payer, fee).value;
            && IsSac(l', sac) && AssetOf(l', sac) == AssetOf(l, sac)
            && AuthorizedView(l', sac, holder) == AuthorizedView(l, sac, holder)
            && var admin := AssetOf(l, sac).admin;
               (ExecutableOf(l', admin) == Some(Executable.Wasm)
                <==> ExecutableOf(l, admin) == Some(Executable.Wasm))
  {
  }

  lemma TrustView(l: Ledger, sac: Address, holder: Address)
    requires IsSac(l, sac) && TryTrust(l, sac, holder).Some?
    ensures AuthorizedView(TryTrust(l, sac, holder).value, sac, holder) == Some(LineAuthorized(l, sac, holder))
  {
  }

  /** The router asked the admin contract and it answered, rather than aborting as a missing interface does. */
  predicate AdminAnswers(w: World, code: Router.AuthorizerCode, sac: Address, holder: Address)
    requires IsSac(w.ledger, sac)
  {
    && ExecutableOf(w.ledger, AssetOf(w.ledger, sac).admin) == Some(Executable.Wasm)
    && TryTrust(w.ledger, sac, holder).Some?
    && code(w.(ledger := TryTrust(w.ledger, sac, holder).value)).1.Returned?
  }

  lemma RouterSuccess(w: World, code: Router.AuthorizerCode, sac: Address, holder: Address)
    requires IsSac(w.ledger, sac)
    requires Router.IsOk(Router.Onboard(w, code, sac, holder, true).1)
    ensures AuthorizedView(Router.Onboard(w, code, sac, holder, true).0.ledger, sac, holder) == Some(true)
            <==> LineAuthorized(w.ledger, sac, holder) || AdminAnswers(w, code, sac, holder)
  {
    assert TryTrust(w.ledger, sac, holder).Some?;
    TrustView(w.ledger, sac, holder);
    Router.AfterTrust(w.ledger, sac, holder);
    hide TryTrust;
    hide AuthorizedView;
    hide LineAuthorized;
  }

  /** The envelope's own router call is the one the intent speaks of. */
  predicate Names(tx: Tx, intent: Intent) {
    var call := OnboardOf(tx.ops);
    call.Some? && call.value.sac == intent.asset.sac && call.value.holder == intent.holder
  }

  lemma RouterAnswer(cfg: Config, fees: Fees, w: World, code: Router.AuthorizerCode, tx: Tx, intent: Intent)
    requires IsSac(w.ledger, intent.asset.sac) && intent.kind.OnboardKind? && Names(tx, intent)
    requires !IsReady(w.ledger, intent.asset, intent.holder)
    requires HandleCallback(cfg, fees, w, code, tx, intent).Some?
    ensures PayFee(w.ledger, tx.source, tx.fee).Some?
    ensures IsSac(PayFee(w.ledger, tx.source, tx.fee).value, intent.asset.sac)
    ensures var sac, holder := intent.asset.sac, intent.holder;
            AuthorizedView(HandleCallback(cfg, fees, w, code, tx, intent).value.ledger, sac, holder) == Some(true)
            <==> LineAuthorized(w.ledger, sac, holder)
                 || AdminAnswers(w.(ledger := PayFee(w.ledger, tx.source, tx.fee).value), code, sac, holder)
  {
    hide TryTrust;
    hide AuthorizedView;
    hide IsReady;
    hide AdminAnswers;
    hide ExecutableOf;
    hide IsSac;
    hide Router.Onboard;
    var w1 := w.(ledger := PayFee(w.ledger, tx.source, tx.fee).value);
    FeeKeepsContracts(w.ledger, tx.source, tx.fee, intent.asset.sac, intent.holder);
    hide PayFee;
    RouterSuccess(w1, code, intent.asset.sac, intent.holder);
  }

  lemma OpenedView(l: Ledger, l': Ledger, id: AssetId, holder: string, sponsor: Option<string>, limit: int)
    requires IsSac(l, SacOf(id)) && l'.assets == l.assets[id := Opened(l.assets[id], holder, sponsor, limit)]
    ensures IsSac(l', SacOf(id))
    ensures AuthorizedView(l', SacOf(id), Account(holder)) == Some(LineAuthorized(l, SacOf(id), Account(holder)))
  {
  }

  /** After a successful authorize the holder carries the flag on the authorizer's own SAC; no other SAC moves. */
  lemma AuthorizeView(cfg: Config, fees: Fees, w: World, sac: Address, holder: Address)
    requires IsSac(w.ledger, sac) && SubmitAuthorize(cfg, fees, w, holder).Some?
    ensures var l' := SubmitAuthorize(cfg, fees, w, holder).value.ledger;
            AuthorizedView(l', sac, holder)
            == if w.storage.sac == sac then Some(true) else AuthorizedView(w.ledger, sac, holder)
  {
    hide Auth.EventsOf;
    FeeKeepsContracts(w.ledger, cfg.relayer, fees.authorizeFee, sac, holder);
  }

  lemma SponsoredAnswer(cfg: Config, fees: Fees, w: World, code: Router.AuthorizerCode, tx: Tx, intent: Intent)
    requires SponsoredAccepted(cfg, tx, intent) && PinIsRight(w, intent.asset)
    requires !IsReady(w.ledger, intent.asset, intent.holder)
    requires HandleCallback(cfg, fees, w, code, tx, intent).Some?
    ensures var sac, holder := intent.asset.sac, intent.holder;
            AuthorizedView(HandleCallback(cfg, fees, w, code, tx, intent).value.ledger, sac, holder) == Some(true)
            <==> LineAuthorized(w.ledger, sac, holder) || (intent.asset.authorizer.Some? && w.storage.sac == sac)
  {
    hide IsReady;
    hide FirstTrust;
    hide FindByAsset;
    hide AuthorizedView;
    hide ExecTx;
    var sent := Submitted(cfg, tx, true);
    var id, holder := AssetIdOf(intent.asset), intent.holder.key;
    SameOpsSafe(tx, sent, cfg.relayer, holder, id);
    hide SafeToSponsor;
    SponsorshipIsBounded(w.ledger, sent, cfg.relayer, holder, id);
    var w1 := w.(ledger := ExecTx(w.ledger, sent).value);
    OpenedView(w.ledger, w1.ledger, id, holder, Some(cfg.relayer), LimitOf(sent.ops));
    hide Opened;
    hide LineAuthorized;
    if intent.asset.authorizer.Some? {
      AuthorizeView(cfg, fees, w1, intent.asset.sac, intent.holder);
      hide SubmitAuthorize;
    }
  }

  lemma SameOpsSafe(tx: Tx, sent: Tx, sponsor: string, user: string, asset: AssetId)
    requires SafeToSponsor(tx, sponsor, user, asset) && sent == tx.(signatures := sent.signatures)
    ensures SafeToSponsor(sent, sponsor, user, asset)
  {
    var i :| 1 <= i < |tx.ops| - 1 && OpensLine(tx.ops[i], tx, user, asset)
             && forall j :: 1 <= j < |tx.ops| - 1 && j != i ==> CreatesUser(tx.ops[j], tx, sponsor, user);
    assert OpensLine(sent.ops[i], sent, user, asset);
    assert forall j :: 1 <= j < |tx.ops| - 1 && j != i ==> CreatesUser(sent.ops[j], sent, sponsor, user);
  }

  /** Before the callback runs: whether its answer "authorized" will be true. */
  predicate AnswerIsTrue(w: World, code: Router.AuthorizerCode, tx: Tx, intent: Intent)
    requires IsSac(w.ledger, intent.asset.sac)
  {
    || LineAuthorized(w.ledger, intent.asset.sac, intent.holder)
    || (&& !IsReady(w.ledger, intent.asset, intent.holder)
        && if intent.kind.SponsoredKind? then intent.asset.authorizer.Some? && w.storage.sac == intent.asset.sac
           else
             var paid := PayFee(w.ledger, tx.source, tx.fee).GetOr(w.ledger);
             IsSac(paid, intent.asset.sac) && AdminAnswers(w.(ledger := paid), code, intent.asset.sac, intent.holder))
  }

  /**
   The callback answers "authorized" whenever it does not fail: for a ready holder, a sponsored envelope and
   a router call, and whatever contract is the SAC admin. The answer is true exactly when the line it finds
   (or opens) carries the flag by itself, a sponsored line is then authorized on its own SAC, or the admin
   contract answers the router.
   */
  lemma CallbackAnswer(cfg: Config, fees: Fees, w: World, code: Router.AuthorizerCode, tx: Tx, intent: Intent)
    requires Accepted(cfg, Plain(tx), intent) && PinIsRight(w, intent.asset)
    requires HandleCallback(cfg, fees, w, code, tx, intent).Some?
    ensures var l' := HandleCallback(cfg, fees, w, code, tx, intent).value.ledger;
            AuthorizedView(l', intent.asset.sac, intent.holder) == Some(true) <==> AnswerIsTrue(w, code, tx, intent)
  {
    if IsReady(w.ledger, intent.asset, intent.holder) {
      ReadyView(w.ledger, intent.asset, intent.holder);
    } else {
      hide IsReady;
      hide AuthorizedView;
      hide LineAuthorized;
      hide HandleCallback;
      hide AdminAnswers;
      hide PayFee;
      hide OnboardOf;
      if intent.kind.SponsoredKind? {
        SponsoredAnswer(cfg, fees, w, code, tx, intent);
      } else {
        CountersignedOnboard(cfg, Plain(tx), intent);
        RouterAnswer(cfg, fees, w, code, tx, intent);
      }
    }
  }

  /** With a pin that names this authorizer as the asset's SAC admin, the answer is always true. */
  lemma RegulatedAnswerIsTrue(cfg: Config, fees: Fees, w: World, tx: Tx, intent: Intent)
    requires Accepted(cfg, Plain(tx), intent) && PinIsRight(w, intent.asset) && intent.asset.authorizer.Some?
    requires w.storage.sac == intent.asset.sac && AssetOf(w.ledger, intent.asset.sac).admin == w.self
    requires w.self.Contract? && w.self in w.ledger.wasm
    requires HandleCallback(cfg, fees, w, ThisAuthorizer(fees, intent.holder), tx, intent).Some?
    ensures AuthorizedView(HandleCallback(cfg, fees, w, ThisAuthorizer(fees, intent.holder), tx, intent).value.ledger,
                           intent.asset.sac, intent.holder) == Some(true)
  {
    var code, asset, holder := ThisAuthorizer(fees, intent.holder), intent.asset, intent.holder;
    if IsReady(w.ledger, asset, holder) {
      assert AuthorizedView(w.ledger, asset.sac, holder) == Some(true);
    } else {
      hide IsReady;
      hide AuthorizedView;
      hide Accepted;
      hide AnswerIsTrue;
      if intent.kind.SponsoredKind? {
        CallbackAnswer(cfg, fees, w, code, tx, intent);
        SponsoredIsTrue(w, code, tx, intent);
      } else {
        CountersignedOnboard(cfg, Plain(tx), intent);
        RegulatedRouterAnswer(cfg, fees, w, tx, intent);
      }
    }
  }

  lemma SponsoredIsTrue(w: World, code: Router.AuthorizerCode, tx: Tx, intent: Intent)
    requires IsSac(w.ledger, intent.asset.sac) && intent.kind.SponsoredKind? && intent.asset.authorizer.Some?
    requires w.storage.sac == intent.asset.sac && !IsReady(w.ledger, intent.asset, intent.holder)
    ensures AnswerIsTrue(w, code, tx, intent)
  {
  }

  lemma RegulatedRouterAnswer(cfg: Config, fees: Fees, w: World, tx: Tx, intent: Intent)
    requires IsSac(w.ledger, intent.asset.sac) && intent.kind.OnboardKind? && Names(tx, intent)
    requires !IsReady(w.ledger, intent.asset, intent.holder)
    requires w.self.Contract? && w.self in w.ledger.wasm && AssetOf(w.ledger, intent.asset.sac).admin == w.self
    requires HandleCallback(cfg, fees, w, ThisAuthorizer(fees, intent.holder), tx, intent).Some?
    ensures AuthorizedView(HandleCallback(cfg, fees, w, ThisAuthorizer(fees, intent.holder), tx, intent).value.ledger,
                           intent.asset.sac, intent.holder) == Some(true)
  {
    hide IsReady;
    hide AuthorizedView;
    hide Router.Onboard;
    hide Router.AuthorizerAt;
    var w1 := w.(ledger := PayFee(w.ledger, tx.source, tx.fee).value);
    FeeKeepsContracts(w.ledger, tx.source, tx.fee, intent.asset.sac, intent.holder);
    hide PayFee;
    Router.NeverTrustlineOnly(w1, intent.asset.sac, intent.holder, true, fees.seqno);
    Router.Truthful(w1, ThisAuthorizer(fees, intent.holder), intent.asset.sac, intent.holder, true);
  }

  lemma ReadyView(l: Ledger, asset: OfficialAsset, holder: Address)
    requires asset.sac == SacOf(AssetIdOf(asset)) && IsSac(l, asset.sac) && IsReady(l, asset, holder)
    ensures AuthorizedView(l, asset.sac, holder).Some?
  {
  }

  /** An accepted envelope on which the callback succeeds and leaves the holder's line unauthorized. */
  ghost predicate Overstated(cfg: Config, fees: Fees, w: World, code: Router.AuthorizerCode, tx: Tx, intent: Intent) {
    && Accepted(cfg, Plain(tx), intent) && PinIsRight(w, intent.asset)
    && var end := HandleCallback(cfg, fees, w, code, tx, intent);
       end.Some? && AuthorizedView(end.value.ledger, intent.asset.sac, intent.holder) == Some(false)
  }

  const SAMPLE := OfficialAsset("EURCV", "GISSUER", SacOf(Credit("EURCV", "GISSUER")), None)
  const SAMPLE_CONFIG :=
    Config("GRELAY", [SAMPLE], Some(Contract("CROUTER")), 1000, (k: string) => if k == "GRELAY" then 1 else 2)
  const SAMPLE_HOLDER := Account("GHOLDER")

  /** An asset that requires authorization, administered by its issuer's account, with the lines given. */
  function SampleWorld(accounts: map<string, AccountEntry>, lines: map<Address, Position>): World {
    var asset := Asset(true, Account("GISSUER"), true, true, false, lines, []);
    Auth.World(Contract("CAUTH"), Auth.Storage(Account("GADMIN"), SAMPLE.sac, Auth.Denylist, false, {}, {}),
               Ledger(accounts, map[Credit("EURCV", "GISSUER") := asset], {}), [])
  }

  /** A sandwich for an asset that its issuer authorizes by hand: line opened, answer "authorized", flag off. */
  lemma SponsoredOverstates(fees: Fees, code: Router.AuthorizerCode)
    ensures exists w: World, tx: Tx, intent: Intent ::
              intent.kind.SponsoredKind? && !IsReady(w.ledger, intent.asset, intent.holder)
              && Overstated(SAMPLE_CONFIG, fees, w, code, tx, intent)
  {
    var cfg, holder, id := SAMPLE_CONFIG, SAMPLE_HOLDER, AssetIdOf(SAMPLE);
    var w := SampleWorld(map["GRELAY" := AccountEntry(100_000_000, 0, 0, 0)], map[]);
    var tx := HolderSigns(cfg, EmitSponsored(cfg, SAMPLE, holder.key, true), holder);
    var intent := Intent(SAMPLE, holder, true, SponsoredKind);
    SponsoredIsAccepted(cfg, SAMPLE, holder.key, true);
    assert PinIsRight(w, SAMPLE) && !IsReady(w.ledger, SAMPLE, holder) && Submitted(cfg, tx, true) == tx;
    assert !LineAuthorized(w.ledger, SAMPLE.sac, holder);
    BuiltExecutes(w.ledger, cfg.relayer, holder.key, id, AsSponsor, tx.signatures);
    hide ExecTx;
    SponsoredAnswer(cfg, fees, w, code, tx, intent);
    SponsorshipIsBounded(w.ledger, tx, cfg.relayer, holder.key, id);
    OpenedView(w.ledger, ExecTx(w.ledger, tx).value, id, holder.key, Some(cfg.relayer), LimitOf(tx.ops));
    assert Overstated(cfg, fees, w, code, tx, intent);
  }

  /** The same asset through the router, whose status TrustlineOnly the answer does not look at. */
  lemma RouterOverstates(fees: Fees, code: Router.AuthorizerCode)
    ensures exists w: World, tx: Tx, intent: Intent ::
              intent.kind.OnboardKind? && !IsReady(w.ledger, intent.asset, intent.holder)
              && Overstated(SAMPLE_CONFIG, fees, w, code, tx, intent)
  {
    var cfg, holder := SAMPLE_CONFIG, SAMPLE_HOLDER;
    var w := SampleWorld(map["GHOLDER" := AccountEntry(100_000_000, 0, 0, 0)], map[]);
    var tx := HolderSigns(cfg, EmitOnboard(cfg, SAMPLE, holder, 100, []), holder);
    var intent := Intent(SAMPLE, holder, false, OnboardKind);
    OnboardIsAccepted(cfg, SAMPLE, holder, 100, []);
    assert Overstated(cfg, fees, w, code, tx, intent);
  }

  /** And a holder whose line waits for the issuer is answered "already authorized" without any submission. */
  lemma ReadyOverstates(fees: Fees, code: Router.AuthorizerCode)
    ensures exists w: World, tx: Tx, intent: Intent ::
              IsReady(w.ledger, intent.asset, intent.holder)
              && Overstated(SAMPLE_CONFIG, fees, w, code, tx, intent)
  {
    var cfg, holder := SAMPLE_CONFIG, SAMPLE_HOLDER;
    var w := SampleWorld(map["GHOLDER" := AccountEntry(100_000_000, 1, 0, 0)],
                         map[holder := Position(false, 0, I64_MAX, false, None)]);
    var tx := HolderSigns(cfg, EmitOnboard(cfg, SAMPLE, holder, 100, []), holder);
    var intent := Intent(SAMPLE, holder, false, OnboardKind);
    OnboardIsAccepted(cfg, SAMPLE, holder, 100, []);
    assert IsReady(w.ledger, SAMPLE, holder);
    assert Overstated(cfg, fees, w, code, tx, intent);
  }

  // ---- what the open endpoint can cost ----------------------------------------------------

  /** A contract moves nothing of an account that authorized nothing in its call. */
  ghost predicate Spares(code: Router.AuthorizerCode, key: string) {
    forall w: World :: key in w.ledger.accounts ==>
      key in code(w).0.ledger.accounts && code(w).0.ledger.accounts[key] == w.ledger.accounts[key]
  }

  /** The world after a callback, also when a submission fails: what was included is charged its fee. */
  function Aftermath(cfg: Config, fees: Fees, w: World, code: Router.AuthorizerCode, tx: Tx, intent: Intent): World {
    var sent := Submitted(cfg, tx, intent.countersign);
    if IsReady(w.ledger, intent.asset, intent.holder) then w
    else
      match SubmitAccepted(w, code, sent, intent)
      case None => w.(ledger := PayFee(w.ledger, sent.source, sent.fee).GetOr(w.ledger))
      case Some(w') =>
        if intent.kind.SponsoredKind? && intent.asset.authorizer.Some?
        then SubmitAuthorize(cfg, fees, w', intent.holder).GetOr(
               w'.(ledger := PayFee(w'.ledger, cfg.relayer, fees.authorizeFee).GetOr(w'.ledger)))
        else w'
  }

  lemma AftermathOfSuccess(cfg: Config, fees: Fees, w: World, code: Router.AuthorizerCode, tx: Tx, intent: Intent)
    requires HandleCallback(cfg, fees, w, code, tx, intent).Some?
    ensures Aftermath(cfg, fees, w, code, tx, intent) == HandleCallback(cfg, fees, w, code, tx, intent).value
  {
    hide IsReady;
    hide SubmitAccepted;
    hide SubmitAuthorize;
  }

  /** The entry differs in the balance, lower by at most `spent`, and in at most `locked` sponsored reserves. */
  predicate CostsAtMost(e: AccountEntry, e': AccountEntry, spent: int, locked: nat) {
    && e' == e.(balance := e'.balance, sponsoring := e'.sponsoring)
    && e.balance - spent <= e'.balance <= e.balance
    && e.sponsoring <= e'.sponsoring <= e.sponsoring + locked
  }

  /** What a callback may take: the fee cap where the relayer pays, its authorize fee on a regulated sandwich. */
  function FeeBound(cfg: Config, fees: Fees, intent: Intent): int {
    (if intent.countersign then cfg.maxFee else 0)
    + if intent.kind.SponsoredKind? && intent.asset.authorizer.Some? then fees.authorizeFee else 0
  }

  lemma FeeCost(l: Ledger, payer: string, fee: int, key: string)
    requires key in l.accounts
    ensures var l' := PayFee(l, payer, fee).GetOr(l);
            key in l'.accounts
            && CostsAtMost(l.accounts[key], l'.accounts[key], if payer == key && fee >= 0 then fee else 0, 0)
  {
  }

  /** Authorizing costs the relayer that call's fee, whether or not it succeeds. */
  lemma AuthorizeCost(cfg: Config, fees: Fees, w: World, holder: Address)
    requires cfg.relayer in w.ledger.accounts && fees.authorizeFee >= 0
    ensures var l' := SubmitAuthorize(cfg, fees, w, holder).GetOr(
                        w.(ledger := PayFee(w.ledger, cfg.relayer, fees.authorizeFee).GetOr(w.ledger))).ledger;
            cfg.relayer in l'.accounts
            && CostsAtMost(w.ledger.accounts[cfg.relayer], l'.accounts[cfg.relayer], fees.authorizeFee, 0)
  {
    hide Auth.EventsOf;
  }

  /** An authorization that succeeds has cost the relayer exactly that fee and moved no other balance. */
  lemma AuthorizeIsPaid(cfg: Config, fees: Fees, w: World, holder: Address)
    requires SubmitAuthorize(cfg, fees, w, holder).Some?
    ensures cfg.relayer in w.ledger.accounts
    ensures var e := w.ledger.accounts[cfg.relayer];
            SubmitAuthorize(cfg, fees, w, holder).value.ledger.accounts
            == w.ledger.accounts[cfg.relayer := e.(balance := e.balance - fees.authorizeFee)]
  {
    hide Auth.EventsOf;
  }

  /** A router call that succeeds has cost its source exactly its fee. */
  lemma RouterCallIsPaid(w: World, code: Router.AuthorizerCode, tx: Tx, intent: Intent)
    requires intent.kind.OnboardKind? && SubmitAccepted(w, code, tx, intent).Some? && Spares(code, tx.source)
    ensures var l' := SubmitAccepted(w, code, tx, intent).value.ledger;
            && tx.source in w.ledger.accounts && tx.source in l'.accounts
            && l'.accounts[tx.source].balance == w.ledger.accounts[tx.source].balance - tx.fee
  {
    hide AuthorizedView;
    hide Spares;
    var w1 := w.(ledger := PayFee(w.ledger, tx.source, tx.fee).value);
    var call := OnboardOf(tx.ops).value;
    hide OnboardOf;
    hide PayFee;
    TrustKeepsBalance(w1.ledger, call.sac, call.holder, tx.source);
    if TryTrust(w1.ledger, call.sac, call.holder).Some? {
      CallSpares(w1.(ledger := TryTrust(w1.ledger, call.sac, call.holder).value), code, tx.source);
    }
    hide TryTrust;
    hide ExecutableOf;
  }

  lemma TrustKeepsBalance(l: Ledger, sac: Address, holder: Address, key: string)
    requires key in l.accounts
    ensures TryTrust(l, sac, holder).Some? ==>
              var l' := TryTrust(l, sac, holder).value;
              key in l'.accounts && l'.accounts[key].balance == l.accounts[key].balance
  {
  }

  /** And a failed one costs its source the fee all the same, if it can pay it. */
  lemma FailureIsPaid(cfg: Config, fees: Fees, w: World, code: Router.AuthorizerCode, tx: Tx, intent: Intent)
    requires !IsReady(w.ledger, intent.asset, intent.holder)
    requires SubmitAccepted(w, code, Submitted(cfg, tx, intent.countersign), intent).None?
    requires PayFee(w.ledger, tx.source, tx.fee).Some?
    ensures var accounts := w.ledger.accounts;
            var w' := Aftermath(cfg, fees, w, code, tx, intent);
            && tx.source in accounts
            && w'.ledger.accounts
               == accounts[tx.source := accounts[tx.source].(balance := accounts[tx.source].balance - tx.fee)]
            && w' == w.(ledger := w.ledger.(accounts := w'.ledger.accounts))
  {
    hide IsReady;
    hide SubmitAccepted;
  }

  lemma SandwichCost(cfg: Config, w: World, code: Router.AuthorizerCode, sent: Tx, intent: Intent, holder: string)
    requires intent.kind.SponsoredKind? && sent.source == cfg.relayer && sent.fee <= cfg.maxFee
    requires SafeToSponsor(sent, cfg.relayer, holder, AssetIdOf(intent.asset)) && holder != cfg.relayer
    requires SubmitAccepted(w, code, sent, intent).Some?
    ensures var l' := SubmitAccepted(w, code, sent, intent).value.ledger;
            cfg.relayer in w.ledger.accounts && cfg.relayer in l'.accounts
            && CostsAtMost(w.ledger.accounts[cfg.relayer], l'.accounts[cfg.relayer], cfg.maxFee, 3)
  {
    assert PayFee(w.ledger, sent.source, sent.fee).Some? && sent.fee >= 0;
    hide SafeToSponsor;
    hide PayFee;
    SponsorshipIsBounded(w.ledger, sent, cfg.relayer, holder, AssetIdOf(intent.asset));
    hide ExecTx;
  }

  lemma RouterCost(cfg: Config, w: World, code: Router.AuthorizerCode, tx: Tx, intent: Intent)
    requires intent.kind.OnboardKind? && intent.holder != Account(cfg.relayer) && Names(tx, intent)
    requires tx.source == cfg.relayer ==> tx.fee <= cfg.maxFee
    requires cfg.relayer in w.ledger.accounts && Spares(code, cfg.relayer) && 0 <= cfg.maxFee
    requires SubmitAccepted(w, code, tx, intent).Some?
    ensures var l' := SubmitAccepted(w, code, tx, intent).value.ledger;
            cfg.relayer in l'.accounts
            && CostsAtMost(w.ledger.accounts[cfg.relayer], l'.accounts[cfg.relayer],
                           if tx.source == cfg.relayer then cfg.maxFee else 0, 0)
  {
    hide Spares;
    hide Router.Onboard;
    FeeCost(w.ledger, tx.source, tx.fee, cfg.relayer);
    var w1 := w.(ledger := PayFee(w.ledger, tx.source, tx.fee).value);
    hide PayFee;
    RouterSpares(w1, code, intent.asset.sac, intent.holder, cfg.relayer);
  }

  lemma TrustSpares(l: Ledger, sac: Address, holder: Address, key: string)
    requires key in l.accounts && holder != Account(key)
    ensures TryTrust(l, sac, holder).Some? ==>
              var l' := TryTrust(l, sac, holder).value;
              key in l'.accounts && l'.accounts[key] == l.accounts[key]
  {
  }

  lemma CallSpares(w: World, code: Router.AuthorizerCode, key: string)
    requires key in w.ledger.accounts && Spares(code, key)
    ensures key in code(w).0.ledger.accounts && code(w).0.ledger.accounts[key] == w.ledger.accounts[key]
  {
  }

  lemma RouterSpares(w: World, code: Router.AuthorizerCode, sac: Address, holder: Address, key: string)
    requires key in w.ledger.accounts && holder != Account(key) && Spares(code, key)
    ensures var l' := Router.Onboard(w, code, sac, holder, true).0.ledger;
            key in l'.accounts && l'.accounts[key] == w.ledger.accounts[key]
  {
    hide AuthorizedView;
    hide TryTrust;
    hide IsSac;
    hide ExecutableOf;
    hide Spares;
    TrustSpares(w.ledger, sac, holder, key);
    if TryTrust(w.ledger, sac, holder).Some? {
      CallSpares(w.(ledger := TryTrust(w.ledger, sac, holder).value), code, key);
    }
  }

  lemma SponsoredCost(cfg: Config, fees: Fees, w: World, code: Router.AuthorizerCode, tx: Tx, intent: Intent)
    requires SponsoredAccepted(cfg, tx, intent) && 0 <= cfg.maxFee && 0 <= fees.authorizeFee
    requires !IsReady(w.ledger, intent.asset, intent.holder) && cfg.relayer in w.ledger.accounts
    ensures var l' := Aftermath(cfg, fees, w, code, tx, intent).ledger;
            cfg.relayer in l'.accounts
            && CostsAtMost(w.ledger.accounts[cfg.relayer], l'.accounts[cfg.relayer], FeeBound(cfg, fees, intent), 3)
  {
    hide IsReady;
    hide FirstTrust;
    hide FindByAsset;
    hide PayFee;
    hide SubmitAccepted;
    hide SubmitAuthorize;
    var sent := Submitted(cfg, tx, true);
    FeeCost(w.ledger, sent.source, sent.fee, cfg.relayer);
    if SubmitAccepted(w, code, sent, intent).Some? {
      SameOpsSafe(tx, sent, cfg.relayer, intent.holder.key, AssetIdOf(intent.asset));
      hide SafeToSponsor;
      SandwichCost(cfg, w, code, sent, intent, intent.holder.key);
      AuthorizeCost(cfg, fees, SubmitAccepted(w, code, sent, intent).value, intent.holder);
    }
  }

  lemma OnboardCost(cfg: Config, fees: Fees, w: World, code: Router.AuthorizerCode, tx: Tx, intent: Intent)
    requires Accepted(cfg, Plain(tx), intent) && intent.kind.OnboardKind?
    requires 0 <= cfg.maxFee && Spares(code, cfg.relayer)
    requires !IsReady(w.ledger, intent.asset, intent.holder) && cfg.relayer in w.ledger.accounts
    ensures var l' := Aftermath(cfg, fees, w, code, tx, intent).ledger;
            cfg.relayer in l'.accounts
            && CostsAtMost(w.ledger.accounts[cfg.relayer], l'.accounts[cfg.relayer], FeeBound(cfg, fees, intent), 0)
  {
    hide IsReady;
    hide Spares;
    hide Accepted;
    hide PayFee;
    hide SubmitAccepted;
    var sent := Submitted(cfg, tx, intent.countersign);
    CountersignedOnboard(cfg, Plain(tx), intent);
    FeeCost(w.ledger, sent.source, sent.fee, cfg.relayer);
    if SubmitAccepted(w, code, sent, intent).Some? {
      RouterCost(cfg, w, code, sent, intent);
    }
  }

  lemma KindOfShape(cfg: Config, tx: Tx, intent: Intent)
    requires Accepted(cfg, Plain(tx), intent)
    ensures intent.kind.SponsoredKind? <==> |tx.ops| >= 3 && tx.ops[0].BeginSponsoring?
    ensures intent.kind.SponsoredKind? ==> intent.countersign
  {
    hide SafeToSponsor;
  }

  /**
   The bound on the open endpoint: whatever anyone posts, once accepted it takes from the relayer, whether
   it succeeds or fails and whatever contract is the SAC admin, nothing for an envelope the holder sources,
   at most the fee cap for a router call it pays, and the fee cap, three base reserves and its own authorize
   fee for a sandwich.
   */
  lemma EndpointIsBounded(cfg: Config, fees: Fees, w: World, code: Router.AuthorizerCode, tx: Tx, intent: Intent)
    requires Accepted(cfg, Plain(tx), intent) && 0 <= cfg.maxFee && 0 <= fees.authorizeFee
    requires Spares(code, cfg.relayer) && cfg.relayer in w.ledger.accounts
    ensures var l' := Aftermath(cfg, fees, w, code, tx, intent).ledger;
            cfg.relayer in l'.accounts
            && CostsAtMost(w.ledger.accounts[cfg.relayer], l'.accounts[cfg.relayer], FeeBound(cfg, fees, intent),
                           if intent.kind.SponsoredKind? then 3 else 0)
    ensures !intent.countersign ==>
              Aftermath(cfg, fees, w, code, tx, intent).ledger.accounts[cfg.relayer] == w.ledger.accounts[cfg.relayer]
    ensures HandleCallback(cfg, fees, w, code, tx, intent).Some? ==>
              HandleCallback(cfg, fees, w, code, tx, intent).value == Aftermath(cfg, fees, w, code, tx, intent)
  {
    KindOfShape(cfg, tx, intent);
    if HandleCallback(cfg, fees, w, code, tx, intent).Some? {
      AftermathOfSuccess(cfg, fees, w, code, tx, intent);
    }
    hide HandleCallback;
    hide IsReady;
    hide SponsoredAccepted;
    hide OnboardAccepted;
    hide Spares;
    hide SubmitAccepted;
    hide SubmitAuthorize;
    if !IsReady(w.ledger, intent.asset, intent.holder) {
      hide Aftermath;
      if intent.kind.SponsoredKind? {
        SponsoredCost(cfg, fees, w, code, tx, intent);
      } else {
        OnboardCost(cfg, fees, w, code, tx, intent);
      }
    }
  }
}
