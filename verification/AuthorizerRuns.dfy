/**
 Whole runs: calls of the authorizer by anyone, onboardings through the router, and everything the
 ledger's other users may do in between. A history asks nothing of the asset but that its SAC stays
 deployed: it may start at deployment, before the issuer hands over the SAC. A run is the managed part
 of one: the asset is AUTH_REQUIRED, the authorizer is its SAC admin, and the issuer does not use its
 classic SetTrustLineFlags power.
 */
module AuthorizerRuns {
  import opened Wrappers
  import opened StellarLedger
  import opened Authorizer
  import Router

  datatype Step =
    | Invoke(call: Call, signers: set<Address>, seqno: nat)
    | OnboardHolder(holder: Address, signed: bool, seqno: nat)
    | Environment

  // ---- histories --------------------------------------------------------------------------

  /** The flag writes a given admin made, by the SAC's own record. */
  function WritesBy(writes: seq<FlagWrite>, caller: Address): seq<FlagWrite> {
    if writes == [] then []
    else
      var last := writes[|writes| - 1];
      WritesBy(writes[..|writes| - 1], caller) + if last.caller == caller then [last] else []
  }

  function OwnWrites(w: World): seq<FlagWrite>
    requires IsSac(w.ledger, w.storage.sac)
  {
    WritesBy(AssetOf(w.ledger, w.storage.sac).writes, w.self)
  }

  /** The router's discovery leads to this contract. */
  predicate Administers(w: World) {
    IsSac(w.ledger, w.storage.sac) && AssetOf(w.ledger, w.storage.sac).admin == w.self
  }

  /** Others may do anything to the ledger but undeploy the SAC or write flags in this contract's name. */
  ghost predicate Elsewhere(w: World, w': World) {
    && w' == w.(ledger := w'.ledger)
    && (IsSac(w.ledger, w.storage.sac) ==> IsSac(w'.ledger, w.storage.sac) && OwnWrites(w') == OwnWrites(w))
  }

  ghost predicate Happens(w: World, s: Step, w': World) {
    match s
    case Invoke(call, signers, seqno) => w' == Apply(w, call, signers, seqno).0
    case OnboardHolder(holder, signed, seqno) =>
      if Administers(w) then w' == Router.OnboardHere(w, w.storage.sac, holder, signed, seqno).0
      else Elsewhere(w, w')
    case Environment => Elsewhere(w, w')
  }

  ghost predicate IsHistory(trace: seq<World>, steps: seq<Step>) {
    && |trace| == |steps| + 1
    && IsSac(trace[0].ledger, trace[0].storage.sac)
    && forall i :: 0 <= i < |steps| ==> Happens(trace[i], steps[i], trace[i + 1])
  }

  // ---- the managed part -------------------------------------------------------------------

  predicate Managed(w: World) {
    && IsSac(w.ledger, w.storage.sac)
    && AssetOf(w.ledger, w.storage.sac).admin == w.self
    && AssetOf(w.ledger, w.storage.sac).authRequired
    && w.self.Contract? && w.self in w.ledger.wasm
  }

  /** A holder's authorized flag; the issuer holds no position in its own asset. */
  predicate FlagOn(w: World, a: Address) {
    && HasLine(w.ledger, w.storage.sac, a)
    && !IsIssuer(w.storage.sac, a)
    && AssetOf(w.ledger, w.storage.sac).positions[a].authorized
  }

  /**
   What everybody else can do to the ledger at once: open, delete and recreate lines, move balances,
   touch other assets, change revocability. A position keeps its flag or is one opened afresh, and
   `set_authorized` is the admin's alone.
   */
  ghost predicate EnvironmentMayChange(w: World, l': Ledger)
    requires Managed(w)
  {
    var sac := w.storage.sac;
    && IsSac(l', sac)
    && w.self in l'.wasm
    && var asset, asset' := AssetOf(w.ledger, sac), AssetOf(l', sac);
       && asset'.admin == asset.admin
       && asset'.authRequired == asset.authRequired
       && asset'.writes == asset.writes
       && forall a :: a in asset'.positions ==>
            || (a in asset.positions && asset'.positions[a].authorized == asset.positions[a].authorized)
            || asset'.positions[a].authorized == NewLine(asset').authorized
  }

  ghost predicate Transition(w: World, s: Step, w': World) {
    match s
    case Invoke(call, signers, seqno) => w' == Apply(w, call, signers, seqno).0
    case OnboardHolder(holder, signed, seqno) =>
      w' == Router.OnboardHere(w, w.storage.sac, holder, signed, seqno).0
    case Environment => Managed(w) ==> w' == w.(ledger := w'.ledger) && EnvironmentMayChange(w, w'.ledger)
  }

  ghost predicate IsRun(trace: seq<World>, steps: seq<Step>) {
    && |trace| == |steps| + 1
    && Managed(trace[0])
    && forall i :: 0 <= i < |steps| ==> Transition(trace[i], steps[i], trace[i + 1])
  }

  // ---- one step ---------------------------------------------------------------------------

  /** An onboarding either runs the authorizer's own call on the opened line or only opens the line. */
  lemma OnboardAsCall(w: World, holder: Address, signed: bool, seqno: nat)
    requires Administers(w)
    ensures var w' := Router.OnboardHere(w, w.storage.sac, holder, signed, seqno).0;
            || w' == w
            || (&& TryTrust(w.ledger, w.storage.sac, holder).Some?
                && var w1 := w.(ledger := TryTrust(w.ledger, w.storage.sac, holder).value);
                   && Administers(w1) && (Managed(w) ==> Managed(w1))
                   && AssetOf(w1.ledger, w1.storage.sac).writes == AssetOf(w.ledger, w.storage.sac).writes
                   && (w' == w1 || (w' == Apply(w1, AuthorizeTrustline(holder), {}, seqno).0
                                    && Guard(w1, AuthorizeTrustline(holder), {}).Ok?)))
  {
    if TryTrust(w.ledger, w.storage.sac, holder).Some? {
      Router.AfterTrust(w.ledger, w.storage.sac, holder);
    }
  }

  lemma TransitionHappens(w: World, s: Step, w': World)
    requires Managed(w) && Transition(w, s, w')
    ensures Happens(w, s, w')
  {
  }

  /** Every run is a history. */
  lemma RunIsHistory(trace: seq<World>, steps: seq<Step>)
    requires IsRun(trace, steps)
    ensures IsHistory(trace, steps)
  {
    forall i | 0 <= i < |steps|
      ensures Happens(trace[i], steps[i], trace[i + 1])
    {
      RunStaysManaged(trace, steps, i);
      TransitionHappens(trace[i], steps[i], trace[i + 1]);
    }
  }

  lemma {:induction false} WritesByConcat(a: seq<FlagWrite>, b: seq<FlagWrite>, caller: Address)
    ensures WritesBy(a + b, caller) == WritesBy(a, caller) + WritesBy(b, caller)
  {
    if b == [] {
      assert a + b == a;
    } else {
      assert (a + b)[..|a + b| - 1] == a + b[..|b| - 1];
      WritesByConcat(a, b[..|b| - 1], caller);
    }
  }

  lemma {:induction false} BatchWritesAreOwn(w: World, batch: seq<Address>, on: bool)
    ensures WritesBy(WritesOf(w, batch, on), w.self) == WritesOf(w, batch, on)
  {
    if batch != [] {
      var front := batch[..|batch| - 1];
      BatchWritesAreOwn(w, front, on);
      WritesByConcat(WritesOf(w, front, on), WritesOf(w, batch, on)[|WritesOf(w, front, on)|..], w.self);
      assert WritesOf(w, batch, on)
          == WritesOf(w, front, on) + WritesOf(w, batch, on)[|WritesOf(w, front, on)|..];
    }
  }

  lemma CallKeepsSac(w: World, call: Call, signers: set<Address>, seqno: nat)
    requires IsSac(w.ledger, w.storage.sac)
    ensures var w' := Apply(w, call, signers, seqno).0;
            IsSac(w'.ledger, w'.storage.sac) && w'.self == w.self && w'.storage.sac == w.storage.sac
  {
  }

  lemma StepKeepsSac(w: World, s: Step, w': World)
    requires IsSac(w.ledger, w.storage.sac) && Happens(w, s, w')
    ensures IsSac(w'.ledger, w'.storage.sac) && w'.self == w.self && w'.storage.sac == w.storage.sac
  {
    if s.Invoke? {
      CallKeepsSac(w, s.call, s.signers, s.seqno);
    } else if s.OnboardHolder? && Administers(w) {
      OnboardAsCall(w, s.holder, s.signed, s.seqno);
      if w' != w {
        var w1 := w.(ledger := TryTrust(w.ledger, w.storage.sac, s.holder).value);
        CallKeepsSac(w1, AuthorizeTrustline(s.holder), {}, s.seqno);
      }
    }
  }

  lemma {:induction false} HistoryKeepsSac(trace: seq<World>, steps: seq<Step>, k: nat)
    requires IsHistory(trace, steps) && k < |trace|
    ensures IsSac(trace[k].ledger, trace[k].storage.sac)
    ensures trace[k].self == trace[0].self && trace[k].storage.sac == trace[0].storage.sac
  {
    if k > 0 {
      HistoryKeepsSac(trace, steps, k - 1);
      StepKeepsSac(trace[k - 1], steps[k - 1], trace[k]);
    }
  }

  lemma CallKeepsManaged(w: World, call: Call, signers: set<Address>, seqno: nat)
    requires Managed(w)
    ensures var w' := Apply(w, call, signers, seqno).0;
            Managed(w') && w'.self == w.self && w'.storage.sac == w.storage.sac
  {
    hide WritesOf;
    hide PositionsAfter;
    hide EventsOf;
  }

  lemma StepKeepsManaged(w: World, s: Step, w': World)
    requires Managed(w) && Transition(w, s, w')
    ensures Managed(w') && w'.self == w.self && w'.storage.sac == w.storage.sac
  {
    match s {
      case Invoke(call, signers, seqno) => CallKeepsManaged(w, call, signers, seqno);
      case OnboardHolder(holder, signed, seqno) =>
        OnboardAsCall(w, holder, signed, seqno);
        if TryTrust(w.ledger, w.storage.sac, holder).Some? && w' != w {
          var w1 := w.(ledger := TryTrust(w.ledger, w.storage.sac, holder).value);
          CallKeepsManaged(w1, AuthorizeTrustline(holder), {}, seqno);
        }
      case Environment =>
    }
  }

  lemma {:induction false} RunStaysManaged(trace: seq<World>, steps: seq<Step>, k: nat)
    requires IsRun(trace, steps) && k < |trace|
    ensures Managed(trace[k]) && trace[k].self == trace[0].self && trace[k].storage.sac == trace[0].storage.sac
  {
    if k > 0 {
      RunStaysManaged(trace, steps, k - 1);
      StepKeepsManaged(trace[k - 1], steps[k - 1], trace[k]);
    }
  }

  // ---- who acts ---------------------------------------------------------------------------

  /** The contract's storage moves only under the signature of the admin in office. */
  lemma StorageMovesByAdmin(w: World, s: Step, w': World)
    requires Happens(w, s, w') && w'.storage != w.storage
    ensures s.Invoke? && !s.call.AuthorizeTrustline? && w.storage.admin in s.signers
  {
    if s.Invoke? {
      OnlyTheAdminActs(w, s.call, s.signers, s.seqno);
    } else if s.OnboardHolder? && Administers(w) {
      OnboardAsCall(w, s.holder, s.signed, s.seqno);
      hide Router.OnboardHere;
    }
    hide Apply;
  }

  /** What a step adds to the log: its admin's events, under the admin's signature unless they only authorize. */
  lemma LogGrowsByAdmin(w: World, s: Step, w': World)
    requires Happens(w, s, w')
    ensures w.log <= w'.log
    ensures forall i :: |w.log| <= i < |w'.log| ==>
              && w'.log[i].admin == w.storage.admin
              && (w'.log[i].action.Authorized? || (s.Invoke? && w.storage.admin in s.signers))
  {
    if s.Invoke? {
      CallLogged(w, s.call, s.signers, s.seqno);
    } else if s.OnboardHolder? && Administers(w) {
      OnboardAsCall(w, s.holder, s.signed, s.seqno);
      if TryTrust(w.ledger, w.storage.sac, s.holder).Some? {
        var w1 := w.(ledger := TryTrust(w.ledger, w.storage.sac, s.holder).value);
        CallLogged(w1, AuthorizeTrustline(s.holder), {}, s.seqno);
        hide Router.OnboardHere;
      }
    }
    hide Apply;
    hide Guard;
  }

  lemma CallLogged(w: World, call: Call, signers: set<Address>, seqno: nat)
    ensures var w' := Apply(w, call, signers, seqno).0;
            && w.log <= w'.log
            && forall i :: |w.log| <= i < |w'.log| ==>
                 && w'.log[i].admin == w.storage.admin
                 && (if call.AuthorizeTrustline? then w'.log[i].action.Authorized? else w.storage.admin in signers)
  {
    OnlyTheAdminActs(w, call, signers, seqno);
    if Guard(w, call, signers).Ok? {
      CallIsTold(w, call, signers, seqno);
      if call.AuthorizeTrustline? {
        OneEvent(w, call, seqno);
      }
    }
    hide Guard;
    hide LedgerOf;
    hide StorageAfter;
  }

  /** The step of a history at which the j-th event was logged. */
  ghost predicate LoggedAt(trace: seq<World>, steps: seq<Step>, m: nat, j: nat)
    requires |trace| == |steps| + 1 && m < |steps|
  {
    |trace[m].log| <= j < |trace[m + 1].log|
  }

  /**
   Every event of a history other than an authorization was logged by a call that the admin in office at
   that moment signed, and names that admin.
   */
  lemma {:induction false} EveryEventIsSigned(trace: seq<World>, steps: seq<Step>, k: nat, j: nat)
    requires IsHistory(trace, steps) && k < |trace| && |trace[0].log| <= j < |trace[k].log|
    ensures trace[0].log <= trace[k].log
    ensures exists m :: 0 <= m < k && LoggedAt(trace, steps, m, j)
                        && trace[k].log[j].admin == trace[m].storage.admin
                        && (trace[k].log[j].action.Authorized?
                            || (steps[m].Invoke? && trace[m].storage.admin in steps[m].signers))
  {
    hide Happens;
    LogGrowsByAdmin(trace[k - 1], steps[k - 1], trace[k]);
    if j < |trace[k - 1].log| {
      EveryEventIsSigned(trace, steps, k - 1, j);
    } else {
      LogsGrow(trace, steps, k - 1);
      assert LoggedAt(trace, steps, k - 1, j);
    }
  }

  lemma {:induction false} LogsGrow(trace: seq<World>, steps: seq<Step>, k: nat)
    requires IsHistory(trace, steps) && k < |trace|
    ensures trace[0].log <= trace[k].log
  {
    hide Happens;
    if k > 0 {
      LogsGrow(trace, steps, k - 1);
      LogGrowsByAdmin(trace[k - 1], steps[k - 1], trace[k]);
    }
  }

  // ---- what a call does to the ledger -----------------------------------------------------

  /** Every account's view after an accepted call, and the calls that leave the whole ledger alone. */
  lemma ViewsExactly(w: World, call: Call, signers: set<Address>, seqno: nat, a: Address)
    requires Managed(w) && Guard(w, call, signers).Ok?
    ensures var w' := Apply(w, call, signers, seqno).0;
            && ViewIn(w', a) == (if call.AuthorizeTrustline? && call.account == a then Some(true)
                                 else if call.Deauthorize? && call.account == a then Some(false)
                                 else if call.Freeze? && a in call.accounts && CanSet(w, a, false) then Some(false)
                                 else if call.Unfreeze? && a in call.accounts && CanSet(w, a, true) then Some(true)
                                 else ViewIn(w, a))
            && w'.ledger.accounts == w.ledger.accounts && w'.ledger.wasm == w.ledger.wasm
            && (BatchOf(call).Some? && !call.Freeze? && !call.Unfreeze? ==> w'.ledger == w.ledger)
            && (WorksWhilePaused(call) || call.SetPolicy? ==> w'.ledger == w.ledger)
  {
    AdmissionExactly(w, call, signers);
    hide Guard;
    if call.Freeze? || call.Unfreeze? {
      ViewAfterBatch(w, call.accounts, call.Unfreeze?, a);
      hide LedgerAfter;
      hide EventsOf;
      hide CanSet;
    } else {
      hide EventsOf;
    }
  }

  // ---- who can switch a flag on -----------------------------------------------------------

  predicate AuthorizesEligible(w: World, s: Step, a: Address) {
    && Eligible(w, a)
    && match s
       case Invoke(AuthorizeTrustline(b), _, _) => b == a
       case OnboardHolder(b, _, _) => b == a
       case _ => false
  }

  predicate UnfreezesAsAdmin(w: World, s: Step, a: Address) {
    s.Invoke? && s.call.Unfreeze? && a in s.call.accounts && w.storage.admin in s.signers && !w.storage.paused
  }

  lemma CallRaises(w: World, call: Call, signers: set<Address>, seqno: nat, a: Address)
    requires Managed(w)
    requires !FlagOn(w, a) && FlagOn(Apply(w, call, signers, seqno).0, a)
    ensures (call == AuthorizeTrustline(a) && Eligible(w, a))
            || UnfreezesAsAdmin(w, Invoke(call, signers, seqno), a)
  {
  }

  /** The only two ways an account's flag goes from off to on. */
  lemma OnlyAuthorizeOrUnfreezeRaises(w: World, s: Step, w': World, a: Address)
    requires Managed(w) && Transition(w, s, w')
    requires !FlagOn(w, a) && FlagOn(w', a)
    ensures AuthorizesEligible(w, s, a) || UnfreezesAsAdmin(w, s, a)
  {
    match s {
      case Invoke(call, signers, seqno) => CallRaises(w, call, signers, seqno, a);
      case OnboardHolder(holder, signed, seqno) =>
        OnboardAsCall(w, holder, signed, seqno);
        var w1 := w.(ledger := TryTrust(w.ledger, w.storage.sac, holder).value);
        assert !FlagOn(w1, a);
        CallRaises(w1, AuthorizeTrustline(holder), {}, seqno, a);
      case Environment =>
    }
  }

  // ---- a freeze holds ---------------------------------------------------------------------

  /** The accepted admin calls after which the policy in force admits an account it refused before. */
  predicate Readmits(w: World, s: Step, a: Address) {
    && s.Invoke?
    && Guard(w, s.call, s.signers).Ok?
    && match s.call
       case RemoveBanned(b) => w.storage.policy.Denylist? && a in b
       case Allow(b) => w.storage.policy.Allowlist? && a in b
       case Unfreeze(b) => a in b
       case SetPolicy(p) => Admitted(w.storage.(policy := p), a)
       case _ => false
  }

  predicate Stopped(w: World, a: Address) {
    !FlagOn(w, a) && !Admitted(w.storage, a)
  }

  /** A refused account is admitted by exactly these steps, over any history. */
  lemma StaysExpelled(w: World, s: Step, w': World, a: Address)
    requires IsSac(w.ledger, w.storage.sac) && Happens(w, s, w') && !Admitted(w.storage, a)
    ensures Admitted(w'.storage, a) <==> Readmits(w, s, a)
  {
    if s.OnboardHolder? && Administers(w) {
      OnboardAsCall(w, s.holder, s.signed, s.seqno);
      hide Router.OnboardHere;
    }
    hide LedgerOf;
    hide EventsOf;
  }

  /** And on a managed asset an account both refused and unauthorized stays so under every other step. */
  lemma StaysStopped(w: World, s: Step, w': World, a: Address)
    requires Managed(w) && Transition(w, s, w') && Stopped(w, a)
    ensures Stopped(w', a) <==> !Readmits(w, s, a)
  {
    TransitionHappens(w, s, w');
    StaysExpelled(w, s, w', a);
    hide Happens;
    if FlagOn(w', a) && !Readmits(w, s, a) {
      OnlyAuthorizeOrUnfreezeRaises(w, s, w', a);
      assert false;
    }
  }

  lemma FreezeStops(w: World, s: Step, w': World, a: Address)
    requires s.Invoke? && s.call.Freeze? && a in s.call.accounts && Guard(w, s.call, s.signers).Ok?
    requires Transition(w, s, w') && !FlagOn(w', a)
    ensures Stopped(w', a)
  {
  }

  /**
   After a freeze that took the flag away, no interleaving of authorize calls, onboardings, line
   deletions and recreations or other admin calls gives it back before the admin re-admits the account.
   */
  lemma {:induction false} FreezeHolds(trace: seq<World>, steps: seq<Step>, i: nat, k: nat, a: Address)
    requires IsRun(trace, steps) && i < k < |trace|
    requires steps[i].Invoke? && steps[i].call.Freeze? && a in steps[i].call.accounts
    requires Guard(trace[i], steps[i].call, steps[i].signers).Ok?
    requires !FlagOn(trace[i + 1], a)
    requires forall m :: i < m < k ==> !Readmits(trace[m], steps[m], a)
    ensures !FlagOn(trace[k], a) && !Admitted(trace[k].storage, a) && !Eligible(trace[k], a)
  {
    hide Transition;
    hide Guard;
    hide Readmits;
    hide Managed;
    hide FlagOn;
    if k == i + 1 {
      FreezeStops(trace[i], steps[i], trace[k], a);
    } else {
      FreezeHolds(trace, steps, i, k - 1, a);
      RunStaysManaged(trace, steps, k - 1);
      StaysStopped(trace[k - 1], steps[k - 1], trace[k], a);
    }
  }

  lemma FreezeExpelsNow(w: World, s: Step, w': World, a: Address)
    requires s.Invoke? && s.call.Freeze? && a in s.call.accounts && Guard(w, s.call, s.signers).Ok?
    requires Happens(w, s, w')
    ensures !Admitted(w'.storage, a)
  {
  }

  /** However long after the freeze: over any history, before a re-admitting step, the account stays out. */
  lemma {:induction false} FreezeExpels(trace: seq<World>, steps: seq<Step>, i: nat, k: nat, a: Address)
    requires IsHistory(trace, steps) && i < k < |trace|
    requires steps[i].Invoke? && steps[i].call.Freeze? && a in steps[i].call.accounts
    requires Guard(trace[i], steps[i].call, steps[i].signers).Ok?
    requires forall m :: i < m < k ==> !Readmits(trace[m], steps[m], a)
    ensures !Admitted(trace[k].storage, a)
  {
    hide Happens;
    hide Guard;
    hide Readmits;
    hide Admitted;
    if k == i + 1 {
      FreezeExpelsNow(trace[i], steps[i], trace[k], a);
    } else {
      FreezeExpels(trace, steps, i, k - 1, a);
      HistoryKeepsSac(trace, steps, k - 1);
      StaysExpelled(trace[k - 1], steps[k - 1], trace[k], a);
    }
  }

  predicate SwitchesPolicy(w: World, s: Step) {
    s.Invoke? && s.call.SetPolicy? && s.call.policy != w.storage.policy && Guard(w, s.call, s.signers).Ok?
  }

  lemma OnlySetPolicySwitches(w: World, s: Step, w': World)
    requires Happens(w, s, w') && !SwitchesPolicy(w, s)
    ensures w'.storage.policy == w.storage.policy
  {
    if s.OnboardHolder? && Administers(w) {
      OnboardAsCall(w, s.holder, s.signed, s.seqno);
      hide Router.OnboardHere;
    }
    hide LedgerOf;
    hide EventsOf;
  }

  /** The policy itself moves by accepted switches alone. */
  lemma {:induction false} PolicyStands(trace: seq<World>, steps: seq<Step>, i: nat, k: nat)
    requires IsHistory(trace, steps) && i <= k < |trace|
    requires forall m :: i <= m < k ==> !SwitchesPolicy(trace[m], steps[m])
    ensures trace[k].storage.policy == trace[i].storage.policy
  {
    hide Happens;
    hide SwitchesPolicy;
    if k > i {
      PolicyStands(trace, steps, i, k - 1);
      OnlySetPolicySwitches(trace[k - 1], steps[k - 1], trace[k]);
    }
  }

  // ---- a freeze and the policy not in force -----------------------------------------------

  /** Refused under either policy. */
  predicate Barred(st: Storage, a: Address) {
    a in st.banned && a !in st.allowed
  }

  /** An accepted call that takes an account's name off a refusing set, whichever policy is in force. */
  predicate Lifts(w: World, s: Step, a: Address) {
    && s.Invoke?
    && Guard(w, s.call, s.signers).Ok?
    && match s.call
       case RemoveBanned(b) => a in b
       case Allow(b) => a in b
       case Unfreeze(b) => a in b
       case _ => false
  }

  lemma StaysBarred(w: World, s: Step, w': World, a: Address)
    requires IsSac(w.ledger, w.storage.sac) && Happens(w, s, w')
    requires Barred(w.storage, a) && !Lifts(w, s, a)
    ensures Barred(w'.storage, a)
  {
    if s.OnboardHolder? && Administers(w) {
      OnboardAsCall(w, s.holder, s.signed, s.seqno);
      hide Router.OnboardHere;
    }
    hide LedgerOf;
    hide EventsOf;
  }

  /** Through any number of policy switches, a barred account stays barred until its name is lifted. */
  lemma {:induction false} BarredForGood(trace: seq<World>, steps: seq<Step>, k: nat, a: Address)
    requires IsHistory(trace, steps) && k < |trace| && Barred(trace[0].storage, a)
    requires forall m :: 0 <= m < k ==> !Lifts(trace[m], steps[m], a)
    ensures Barred(trace[k].storage, a)
  {
    hide Happens;
    hide Lifts;
    hide Barred;
    if k > 0 {
      BarredForGood(trace, steps, k - 1, a);
      HistoryKeepsSac(trace, steps, k - 1);
      StaysBarred(trace[k - 1], steps[k - 1], trace[k], a);
    }
  }

  /** A history that starts here and, without any call that lifts the name, comes to admit the account. */
  ghost predicate Escapes(w: World, a: Address, trace: seq<World>, steps: seq<Step>, k: nat) {
    && IsHistory(trace, steps) && trace[0] == w && k < |trace|
    && (forall m :: 0 <= m < k ==> !Lifts(trace[m], steps[m], a))
    && Admitted(trace[k].storage, a)
  }

  ghost predicate StaysOut(w: World, a: Address) {
    forall trace: seq<World>, steps: seq<Step>, k: nat :: !Escapes(w, a, trace, steps, k)
  }

  function OtherPolicy(p: Policy): Policy {
    if p.Denylist? then Allowlist else Denylist
  }

  /** One switch by the admin admits an account that only the set in force refuses. */
  lemma SwitchAdmits(w: World, a: Address)
    requires IsSac(w.ledger, w.storage.sac) && !w.storage.paused && !Barred(w.storage, a)
    ensures !StaysOut(w, a)
  {
    if !Admitted(w.storage, a) {
      var switch := Invoke(SetPolicy(OtherPolicy(w.storage.policy)), {w.storage.admin}, 0);
      var switched := Apply(w, switch.call, switch.signers, 0).0;
      var trace, steps := [w, switched], [switch];
      assert Happens(trace[0], steps[0], trace[1]);
      assert !Lifts(trace[0], steps[0], a) && Admitted(trace[1].storage, a);
      hide Happens;
      hide Lifts;
      assert Escapes(w, a, trace, steps, 1);
    } else {
      var trace, steps: seq<Step> := [w], [];
      assert Escapes(w, a, trace, steps, 0);
    }
  }

  lemma BarredStaysOut(w: World, a: Address)
    requires Barred(w.storage, a)
    ensures StaysOut(w, a)
  {
    hide Happens;
    hide Lifts;
    forall trace: seq<World>, steps: seq<Step>, k: nat
      ensures !Escapes(w, a, trace, steps, k)
    {
      if Escapes(w, a, trace, steps, k) {
        BarredForGood(trace, steps, k, a);
        assert false;
      }
    }
  }

  /**
   A freeze writes only the set of the policy in force. So it lasts, through whatever policy switches, until
   a call lifts the account's name exactly when the other set refuses the account already; otherwise a single
   set_policy is enough to admit it again.
   */
  lemma FreezeLasts(w: World, batch: seq<Address>, signers: set<Address>, seqno: nat, a: Address)
    requires IsSac(w.ledger, w.storage.sac) && a in batch && Guard(w, Freeze(batch), signers).Ok?
    ensures StaysOut(Apply(w, Freeze(batch), signers, seqno).0, a)
            <==> if w.storage.policy.Denylist? then a !in w.storage.allowed else a in w.storage.banned
  {
    hide StaysOut;
    hide LedgerOf;
    hide EventsOf;
    var frozen := Apply(w, Freeze(batch), signers, seqno).0;
    CallKeepsSac(w, Freeze(batch), signers, seqno);
    if Barred(frozen.storage, a) {
      BarredStaysOut(frozen, a);
    } else {
      SwitchAdmits(frozen, a);
    }
  }

  lemma BarredIsNotReadmitted(w: World, s: Step, a: Address)
    requires Barred(w.storage, a) && !Lifts(w, s, a)
    ensures !Readmits(w, s, a)
  {
  }

  /** On a managed asset such an account regains no authorization either, whatever policies come and go. */
  lemma BarredHolds(trace: seq<World>, steps: seq<Step>, k: nat, a: Address)
    requires IsRun(trace, steps) && k < |trace| && Barred(trace[0].storage, a) && !FlagOn(trace[0], a)
    requires forall m :: 0 <= m < k ==> !Lifts(trace[m], steps[m], a)
    ensures !FlagOn(trace[k], a) && Barred(trace[k].storage, a)
  {
    hide Transition;
    hide Lifts;
    hide FlagOn;
    hide Barred;
    RunIsHistory(trace, steps);
    hide IsHistory;
    BarredForGood(trace, steps, k, a);
    if k > 0 {
      BarredHolds(trace, steps, k - 1, a);
      RunStaysManaged(trace, steps, k - 1);
      BarredIsStopped(trace[k - 1], steps[k - 1], trace[k], a);
    }
  }

  lemma BarredIsStopped(w: World, s: Step, w': World, a: Address)
    requires Managed(w) && Transition(w, s, w') && Barred(w.storage, a) && !FlagOn(w, a) && !Lifts(w, s, a)
    ensures !FlagOn(w', a)
  {
    hide Transition;
    hide FlagOn;
    BarredIsNotReadmitted(w, s, a);
    StaysStopped(w, s, w', a);
  }

  lemma SwitchToDenylist(w: World, a: Address)
    requires w.storage.policy.Allowlist? && a !in w.storage.banned && !w.storage.paused && a != w.self
    ensures var admin := w.storage.admin;
            var frozen := Apply(w, Freeze([a]), {admin}, 0);
            && frozen.1.Ok? && !Eligible(frozen.0, a)
            && Eligible(Apply(frozen.0, SetPolicy(Denylist), {admin}, 1).0, a)
  {
    hide LedgerOf;
    hide EventsOf;
    assert a in Elems([a]);
  }

  /** A never-banned account frozen off the allowlist is admitted again by a switch to the denylist. */
  lemma FreezeUndoneByPolicySwitch()
    ensures exists w: World, a: Address, admin: Address ::
              && Managed(w)
              && var frozen := Apply(w, Freeze([a]), {admin}, 0);
                 && frozen.1.Ok? && !Eligible(frozen.0, a)
                 && Eligible(Apply(frozen.0, SetPolicy(Denylist), {admin}, 1).0, a)
  {
    var usd := SacOf(Credit("EURCV", "GISSUER"));
    var admin, holder, self := Account("GADMIN"), Account("GHOLDER"), Contract("CAUTH");
    var asset := Asset(true, self, true, true, false, map[holder := Position(true, 0, 1000, false, None)], []);
    var w := World(self, Storage(admin, usd, Allowlist, false, {}, {holder}),
                   Ledger(map[], map[usd.asset := asset], {self}), []);
    SwitchToDenylist(w, holder);
    assert Managed(w);
    hide Apply;
    hide Eligible;
  }

  // ---- the emergency stop -----------------------------------------------------------------

  predicate UnpauseSucceeds(w: World, s: Step) {
    s.Invoke? && s.call.Unpause? && Guard(w, s.call, s.signers).Ok?
  }

  /** Same sets and policy, still paused, and no flag written by the contract. */
  ghost predicate Quiet(w: World, w': World) {
    && IsSac(w.ledger, w.storage.sac) && IsSac(w'.ledger, w'.storage.sac)
    && w'.self == w.self
    && w'.storage == w.storage.(admin := w'.storage.admin)
    && OwnWrites(w') == OwnWrites(w)
  }

  lemma PausedStep(w: World, s: Step, w': World)
    requires IsSac(w.ledger, w.storage.sac) && w.storage.paused && Happens(w, s, w') && !UnpauseSucceeds(w, s)
    ensures Quiet(w, w')
  {
    hide WritesBy;
    if s.OnboardHolder? && Administers(w) {
      OnboardAsCall(w, s.holder, s.signed, s.seqno);
      hide Router.OnboardHere;
    } else if s.Invoke? {
      hide Effect;
    }
  }

  lemma QuietTwice(w: World, w': World, w'': World)
    requires Quiet(w, w') && Quiet(w', w'')
    ensures Quiet(w, w'')
  {
    hide OwnWrites;
  }

  /**
   From a pause to the next unpause of any history, managed or not, nothing moves: neither set, nor the
   policy, nor any flag by the contract's hand.
   */
  lemma {:induction false} PauseHolds(trace: seq<World>, steps: seq<Step>, i: nat, k: nat)
    requires IsHistory(trace, steps) && i <= k < |trace|
    requires trace[i].storage.paused
    requires forall m :: i <= m < k ==> !UnpauseSucceeds(trace[m], steps[m])
    ensures Quiet(trace[i], trace[k])
  {
    hide Happens;
    hide UnpauseSucceeds;
    HistoryKeepsSac(trace, steps, i);
    if k > i {
      PauseHolds(trace, steps, i, k - 1);
      PausedStep(trace[k - 1], steps[k - 1], trace[k]);
      QuietTwice(trace[i], trace[k - 1], trace[k]);
      hide OwnWrites;
      hide Quiet;
    }
  }

  lemma NotRaisedWhilePaused(w: World, s: Step, w': World, a: Address)
    requires Managed(w) && Transition(w, s, w') && w.storage.paused
    ensures FlagOn(w', a) ==> FlagOn(w, a)
  {
    hide Transition;
    hide FlagOn;
    if FlagOn(w', a) && !FlagOn(w, a) {
      OnlyAuthorizeOrUnfreezeRaises(w, s, w', a);
      assert false;
    }
  }

  /** And in a managed run nobody gains authorization by any route while paused. */
  lemma {:induction false} NobodyAuthorizedWhilePaused(trace: seq<World>, steps: seq<Step>, i: nat, k: nat, a: Address)
    requires IsRun(trace, steps) && i <= k < |trace|
    requires trace[i].storage.paused
    requires forall m :: i <= m < k ==> !UnpauseSucceeds(trace[m], steps[m])
    ensures FlagOn(trace[k], a) ==> FlagOn(trace[i], a)
  {
    hide Transition;
    hide UnpauseSucceeds;
    hide FlagOn;
    hide AuthorizesEligible;
    hide UnfreezesAsAdmin;
    hide Managed;
    hide IsHistory;
    if k > i {
      NobodyAuthorizedWhilePaused(trace, steps, i, k - 1, a);
      RunStaysManaged(trace, steps, k - 1);
      RunIsHistory(trace, steps);
      PauseHolds(trace, steps, i, k - 1);
      NotRaisedWhilePaused(trace[k - 1], steps[k - 1], trace[k], a);
    }
  }

  // ---- batches ----------------------------------------------------------------------------

  function ViewIn(w: World, a: Address): Option<bool> {
    AuthorizedView(w.ledger, w.storage.sac, a)
  }

  /** A freeze of any batch, duplicates included: who it stops, who it leaves alone, what it reports. */
  lemma FreezeBatch(w: World, batch: seq<Address>, signers: set<Address>, seqno: nat)
    requires Managed(w) && Guard(w, Freeze(batch), signers).Ok?
    ensures var w' := Apply(w, Freeze(batch), signers, seqno).0;
            && (forall a :: a in batch ==> !Eligible(w', a))
            && (forall a :: a in batch && AssetOf(w.ledger, w.storage.sac).authRevocable ==> !FlagOn(w', a))
            && (forall a :: a !in batch ==>
                  && Admitted(w'.storage, a) == Admitted(w.storage, a)
                  && ViewIn(w', a) == ViewIn(w, a)
                  && (a in w'.storage.banned <==> a in w.storage.banned)
                  && (a in w'.storage.allowed <==> a in w.storage.allowed))
            && |w'.log| == |w.log| + |batch|
            && (forall i :: 0 <= i < |batch| ==>
                  && w'.log[|w.log| + i].action.Frozen?
                  && w'.log[|w.log| + i].action.account == batch[i]
                  && (w'.log[|w.log| + i].action.done <==> CanSet(w, batch[i], false)))
            && w'.ledger.accounts == w.ledger.accounts
            && (forall a :: HasLine(w.ledger, w.storage.sac, a) ==>
                  && HasLine(w'.ledger, w.storage.sac, a)
                  && AssetOf(w'.ledger, w.storage.sac).positions[a].balance
                     == AssetOf(w.ledger, w.storage.sac).positions[a].balance)
  {
  }

  function FreezeUnfreeze(w: World, batch: seq<Address>, signers: set<Address>, seqno: nat): (World, Outcome) {
    Apply(Apply(w, Freeze(batch), signers, seqno).0, Unfreeze(batch), signers, seqno)
  }

  lemma ViewAfterBatch(w: World, batch: seq<Address>, on: bool, a: Address)
    requires Managed(w)
    ensures var w' := w.(ledger := LedgerAfter(w, batch, on));
            Managed(w') && ViewIn(w', a) == if a in batch && CanSet(w, a, on) then Some(on) else ViewIn(w, a)
  {
    hide WritesOf;
  }

  lemma ViewAfterBoth(w: World, batch: seq<Address>, a: Address)
    requires Managed(w) && AssetOf(w.ledger, w.storage.sac).authRevocable
    ensures var frozen := w.(ledger := LedgerAfter(w, batch, false));
            var back := frozen.(ledger := LedgerAfter(frozen, batch, true));
            ViewIn(back, a) == if a in batch && CanSet(w, a, true) then Some(true) else ViewIn(w, a)
  {
    assert CanSet(w, a, false) == CanSet(w, a, true);
    hide LedgerAfter;
    hide ViewIn;
    hide CanSet;
    hide Managed;
    var frozen := w.(ledger := LedgerAfter(w, batch, false));
    StillSettable(w, batch, false, a, true);
    ViewAfterBatch(w, batch, false, a);
    ViewAfterBatch(frozen, batch, true, a);
  }

  lemma StorageAfterBoth(st: Storage, batch: seq<Address>)
    ensures Admit(Admit(st, Elems(batch), false), Elems(batch), true) == st
            <==> forall a :: a in batch ==> Admitted(st, a)
  {
    var back := Admit(Admit(st, Elems(batch), false), Elems(batch), true);
    if forall a :: a in batch ==> Admitted(st, a) {
      assert back.banned == st.banned && back.allowed == st.allowed;
    } else {
      var a :| a in batch && !Admitted(st, a);
      assert Admitted(back, a);
    }
  }

  /**
   Freezing and unfreezing the same batch gives back the sets and every holder's authorization exactly
   when every named account was admitted and, where it can carry the flag, authorized.
   */
  lemma FreezeThenUnfreeze(w: World, batch: seq<Address>, signers: set<Address>, seqno: nat)
    requires Managed(w) && AssetOf(w.ledger, w.storage.sac).authRevocable
    requires Guard(w, Freeze(batch), signers).Ok?
    ensures var (back, r) := FreezeUnfreeze(w, batch, signers, seqno);
            && r.Ok?
            && ((back.storage == w.storage && forall a :: ViewIn(back, a) == ViewIn(w, a))
                <==> forall a :: a in batch ==> Admitted(w.storage, a) && (CanSet(w, a, true) ==> FlagOn(w, a)))
  {
    var back := FreezeUnfreeze(w, batch, signers, seqno).0;
    StorageAfterBoth(w.storage, batch);
    forall a
      ensures ViewIn(back, a) == if a in batch && CanSet(w, a, true) then Some(true) else ViewIn(w, a)
      ensures CanSet(w, a, true) ==> (ViewIn(w, a) == Some(true) <==> FlagOn(w, a))
    {
      ViewAfterBoth(w, batch, a);
      SameViewAfterBoth(w, batch, signers, seqno, a);
    }
  }

  lemma SameViewAfterBoth(w: World, batch: seq<Address>, signers: set<Address>, seqno: nat, a: Address)
    requires Managed(w) && Guard(w, Freeze(batch), signers).Ok?
    ensures FreezeUnfreeze(w, batch, signers, seqno).1.Ok?
    ensures var frozen := w.(ledger := LedgerAfter(w, batch, false));
            ViewIn(FreezeUnfreeze(w, batch, signers, seqno).0, a)
            == ViewIn(frozen.(ledger := LedgerAfter(frozen, batch, true)), a)
  {
    var frozen := w.(ledger := LedgerAfter(w, batch, false));
    var frozen' := Apply(w, Freeze(batch), signers, seqno).0;
    SameLedgerAfter(frozen, frozen', batch, true);
  }

  lemma {:induction false} SameWrites(w: World, w': World, batch: seq<Address>, on: bool)
    requires w.ledger == w'.ledger && w.self == w'.self && w.storage.sac == w'.storage.sac
    ensures WritesOf(w, batch, on) == WritesOf(w', batch, on)
  {
    if batch != [] {
      SameWrites(w, w', batch[..|batch| - 1], on);
    }
  }

  /** The ledger a batch leaves depends on the ledger it found and on nothing else of the world. */
  lemma SameLedgerAfter(w: World, w': World, batch: seq<Address>, on: bool)
    requires w.ledger == w'.ledger && w.self == w'.self && w.storage.sac == w'.storage.sac
    ensures LedgerAfter(w, batch, on) == LedgerAfter(w', batch, on)
  {
    SameWrites(w, w', batch, on);
    if IsSac(w.ledger, w.storage.sac) {
      assert PositionsAfter(w, batch, on) == PositionsAfter(w', batch, on);
    }
  }
}
