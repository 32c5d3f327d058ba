/**
 The Trustline Authorizer contract: the SAC admin that authorizes holders permissionlessly under a
 policy, with the issuer's admin console around it. `Apply` states what one call does to the world
 in closed form, batches included; the class is the contract, whose loops are proved against it.
 */
module Authorizer {
  import opened Wrappers
  import opened StellarLedger

  datatype Policy = Denylist | Allowlist

  datatype Reason = Sanctions | KycExpired | IssuerRequest | Unspecified

  datatype Error =
    | AccountBanned | AccountNotAllowed | NoTrustline | ContractPaused | CannotAuthorizeAdminContract
    | NotSac | InvalidBatch | PauseUnchanged | InvalidAmount | AssetRefused

  /** Abort is an untyped failure: a `require_auth` nobody satisfied. */
  datatype Outcome = Ok | Err(error: Error) | Abort

  datatype Action =
    | Authorized(account: Address, policy: Policy)
    | Deauthorized(account: Address, reason: Reason)
    | Banned(account: Address)
    | Unbanned(account: Address)
    | Allowed(account: Address)
    | Disallowed(account: Address)
    | Frozen(account: Address, done: bool, policy: Policy)
    | Unfrozen(account: Address, done: bool, policy: Policy)
    | Clawback(account: Address, amount: int)
    | Minted(account: Address, amount: int)
    | Paused
    | Unpaused
    | PolicySet(policy: Policy)
    | AdminChanged(newAdmin: Address)
    | Upgraded(wasmHash: string)

  /** Every event carries the admin that stood behind the change and the ledger it happened on. */
  datatype Event = Event(action: Action, admin: Address, seqno: nat)

  datatype Storage = Storage(
    admin: Address, sac: Address, policy: Policy, paused: bool,
    banned: set<Address>, allowed: set<Address>)

  /** The contract at address `self`: its storage, the ledger it runs on, the events it published. */
  datatype World = World(self: Address, storage: Storage, ledger: Ledger, log: seq<Event>)

  datatype Call =
    | AuthorizeTrustline(account: Address)
    | AddBanned(accounts: seq<Address>)
    | RemoveBanned(accounts: seq<Address>)
    | Allow(accounts: seq<Address>)
    | Disallow(accounts: seq<Address>)
    | Freeze(accounts: seq<Address>)
    | Unfreeze(accounts: seq<Address>)
    | Deauthorize(account: Address, reason: Reason)
    | MintTo(account: Address, amount: int)
    | ClawbackFrom(account: Address, amount: int)
    | Pause
    | Unpause
    | SetAdmin(newAdmin: Address)
    | SetPolicy(policy: Policy)
    | Upgrade(wasmHash: string)

  const MAX_BATCH := 50

  function Elems<T>(s: seq<T>): set<T> {
    set x | x in s
  }

  // ---- the policy -------------------------------------------------------------------------

  function CheckPolicy(st: Storage, a: Address): Option<Error> {
    match st.policy
    case Denylist => if a in st.banned then Some(AccountBanned) else None
    case Allowlist => if a !in st.allowed then Some(AccountNotAllowed) else None
  }

  predicate Admitted(st: Storage, a: Address) {
    CheckPolicy(st, a).None?
  }

  predicate Eligible(w: World, a: Address) {
    !w.storage.paused && a != w.self && Admitted(w.storage, a)
  }

  /** Re-admit (or expel) a set of accounts in the set the policy in force consults, and only there. */
  function Admit(st: Storage, accounts: set<Address>, on: bool): Storage {
    match st.policy
    case Denylist => st.(banned := if on then st.banned - accounts else st.banned + accounts)
    case Allowlist => st.(allowed := if on then st.allowed + accounts else st.allowed - accounts)
  }

  // ---- batched flag writes ----------------------------------------------------------------

  predicate CanSet(w: World, a: Address, on: bool) {
    TrySetAuthorized(w.ledger, w.storage.sac, w.self, a, on).Some?
  }

  /** The SAC's event for each position of the batch whose write it accepts, in batch order. */
  function WritesOf(w: World, batch: seq<Address>, on: bool): seq<FlagWrite> {
    if batch == [] then []
    else WritesOf(w, batch[..|batch| - 1], on)
         + if CanSet(w, batch[|batch| - 1], on) then [FlagWrite(w.self, batch[|batch| - 1], on)] else []
  }

  /** Every named account whose write the SAC accepts carries the flag; all other positions stand. */
  function PositionsAfter(w: World, batch: seq<Address>, on: bool): map<Address, Position>
    requires IsSac(w.ledger, w.storage.sac)
  {
    var asset := AssetOf(w.ledger, w.storage.sac);
    map a | a in asset.positions.Keys + Elems(batch) && (a in asset.positions || CanSet(w, a, on)) ::
      if a in batch && CanSet(w, a, on) then PositionOr(asset, a).(authorized := on) else asset.positions[a]
  }

  function AssetAfter(w: World, batch: seq<Address>, on: bool): Asset
    requires IsSac(w.ledger, w.storage.sac)
  {
    var asset := AssetOf(w.ledger, w.storage.sac);
    asset.(positions := PositionsAfter(w, batch, on), writes := asset.writes + WritesOf(w, batch, on))
  }

  function LedgerAfter(w: World, batch: seq<Address>, on: bool): Ledger {
    if !IsSac(w.ledger, w.storage.sac) then w.ledger
    else WithAsset(w.ledger, w.storage.sac, AssetAfter(w, batch, on))
  }

  // ---- one call ---------------------------------------------------------------------------

  function BatchOf(call: Call): Option<seq<Address>> {
    if call.AddBanned? || call.RemoveBanned? || call.Allow? || call.Disallow? || call.Freeze? || call.Unfreeze?
    then Some(call.accounts) else None
  }

  predicate WorksWhilePaused(call: Call) {
    call.Pause? || call.Unpause? || call.SetAdmin? || call.Upgrade?
  }

  /** Whether the call gets through, and otherwise which refusal the caller sees. */
  function Guard(w: World, call: Call, signers: set<Address>): Outcome {
    if w.storage.paused && !WorksWhilePaused(call) then Err(ContractPaused)
    else if call.AuthorizeTrustline? then
      if call.account == w.self then Err(CannotAuthorizeAdminContract)
      else if CheckPolicy(w.storage, call.account).Some? then Err(CheckPolicy(w.storage, call.account).value)
      else if !CanSet(w, call.account, true) then Err(NoTrustline)
      else Ok
    else if w.storage.admin !in signers then Abort
    else match call
      case Deauthorize(a, _) => if CanSet(w, a, false) then Ok else Err(NoTrustline)
      case MintTo(a, n) =>
        if n <= 0 then Err(InvalidAmount)
        else if TryMint(w.ledger, w.storage.sac, w.self, a, n).None? then Err(AssetRefused)
        else Ok
      case ClawbackFrom(a, n) =>
        if n <= 0 then Err(InvalidAmount)
        else if TryClawback(w.ledger, w.storage.sac, w.self, a, n).None? then Err(AssetRefused)
        else Ok
      case Pause => if w.storage.paused then Err(PauseUnchanged) else Ok
      case Unpause => if w.storage.paused then Ok else Err(PauseUnchanged)
      case _ =>
        if BatchOf(call).Some? && !(1 <= |BatchOf(call).value| <= MAX_BATCH) then Err(InvalidBatch) else Ok
  }

  function StorageAfter(st: Storage, call: Call): Storage {
    match call
    case AddBanned(b) => st.(banned := st.banned + Elems(b))
    case RemoveBanned(b) => st.(banned := st.banned - Elems(b))
    case Allow(b) => st.(allowed := st.allowed + Elems(b))
    case Disallow(b) => st.(allowed := st.allowed - Elems(b))
    case Freeze(b) => Admit(st, Elems(b), false)
    case Unfreeze(b) => Admit(st, Elems(b), true)
    case Pause => st.(paused := true)
    case Unpause => st.(paused := false)
    case SetAdmin(a) => st.(admin := a)
    case SetPolicy(p) => st.(policy := p)
    case _ => st
  }

  function LedgerOf(w: World, call: Call): Ledger {
    match call
    case AuthorizeTrustline(a) => TrySetAuthorized(w.ledger, w.storage.sac, w.self, a, true).GetOr(w.ledger)
    case Deauthorize(a, _) => TrySetAuthorized(w.ledger, w.storage.sac, w.self, a, false).GetOr(w.ledger)
    case Freeze(b) => LedgerAfter(w, b, false)
    case Unfreeze(b) => LedgerAfter(w, b, true)
    case MintTo(a, n) => TryMint(w.ledger, w.storage.sac, w.self, a, n).GetOr(w.ledger)
    case ClawbackFrom(a, n) => TryClawback(w.ledger, w.storage.sac, w.self, a, n).GetOr(w.ledger)
    case _ => w.ledger
  }

  /** The i-th event of a batch, or the only event of a single call. */
  function ActionOf(w: World, call: Call, i: nat): Action
    requires BatchOf(call).Some? ==> i < |BatchOf(call).value|
  {
    match call
    case AuthorizeTrustline(a) => Authorized(a, w.storage.policy)
    case Deauthorize(a, r) => Deauthorized(a, r)
    case AddBanned(b) => Banned(b[i])
    case RemoveBanned(b) => Unbanned(b[i])
    case Allow(b) => Allowed(b[i])
    case Disallow(b) => Disallowed(b[i])
    case Freeze(b) => Frozen(b[i], CanSet(w, b[i], false), w.storage.policy)
    case Unfreeze(b) => Unfrozen(b[i], CanSet(w, b[i], true), w.storage.policy)
    case MintTo(a, n) => Minted(a, n)
    case ClawbackFrom(a, n) => Clawback(a, n)
    case Pause => Paused
    case Unpause => Unpaused
    case SetAdmin(a) => AdminChanged(a)
    case SetPolicy(p) => PolicySet(p)
    case Upgrade(h) => Upgraded(h)
  }

  function EventCount(call: Call): nat {
    if BatchOf(call).Some? then |BatchOf(call).value| else 1
  }

  function EventsOf(w: World, call: Call, seqno: nat): seq<Event> {
    seq(EventCount(call), i requires 0 <= i < EventCount(call) => Event(ActionOf(w, call, i), w.storage.admin, seqno))
  }

  function Effect(w: World, call: Call, seqno: nat): World {
    World(w.self, StorageAfter(w.storage, call), LedgerOf(w, call), w.log + EventsOf(w, call, seqno))
  }

  /** One call of the contract. A refused call leaves no trace at all. */
  function Apply(w: World, call: Call, signers: set<Address>, seqno: nat): (World, Outcome) {
    var g := Guard(w, call, signers);
    (if g.Ok? then Effect(w, call, seqno) else w, g)
  }

  // ---- who gets through -------------------------------------------------------------------

  /** What each call asks for, as a conjunction that no order of tests matters to. */
  predicate Admissible(w: World, call: Call, signers: set<Address>) {
    && (w.storage.paused ==> call.Unpause? || call.SetAdmin? || call.Upgrade?)
    && (!call.AuthorizeTrustline? ==> w.storage.admin in signers)
    && (BatchOf(call).Some? ==> 1 <= |BatchOf(call).value| <= 50)
    && match call
       case AuthorizeTrustline(a) =>
         && a != w.self && CanSet(w, a, true)
         && if w.storage.policy.Denylist? then a !in w.storage.banned else a in w.storage.allowed
       case Deauthorize(a, _) => CanSet(w, a, false)
       case MintTo(a, n) => n > 0 && TryMint(w.ledger, w.storage.sac, w.self, a, n).Some?
       case ClawbackFrom(a, n) => n > 0 && TryClawback(w.ledger, w.storage.sac, w.self, a, n).Some?
       case Unpause => w.storage.paused
       case _ => true
  }

  lemma AdmissionExactly(w: World, call: Call, signers: set<Address>)
    ensures Guard(w, call, signers).Ok? <==> Admissible(w, call, signers)
  {
    hide CanSet;
    hide TryMint;
    hide TryClawback;
  }

  /** Nobody but the admin in office changes anything, except by authorizing an account the policy admits. */
  lemma OnlyTheAdminActs(w: World, call: Call, signers: set<Address>, seqno: nat)
    ensures Apply(w, call, signers, seqno).0 != w && !call.AuthorizeTrustline? ==> w.storage.admin in signers
    ensures call.AuthorizeTrustline? ==> Apply(w, call, signers, seqno).0.storage == w.storage
  {
    AdmissionExactly(w, call, signers);
    hide Guard;
  }

  /** Which refusal the caller sees, for every call: the pause first, then the missing signature, then the rest. */
  lemma RefusalsExactly(w: World, call: Call, signers: set<Address>)
    ensures var st, g := w.storage, Guard(w, call, signers);
            var stopped := st.paused && !(call.Pause? || call.Unpause? || call.SetAdmin? || call.Upgrade?);
            var unsigned := !call.AuthorizeTrustline? && st.admin !in signers;
            var heard := !stopped && !unsigned;
            && (g == Err(ContractPaused) <==> stopped)
            && (g == Abort <==> !stopped && unsigned)
            && (g == Err(CannotAuthorizeAdminContract) <==> heard && call == AuthorizeTrustline(w.self))
            && (g == Err(AccountBanned) <==>
                  heard && call.AuthorizeTrustline? && call.account != w.self
                  && st.policy.Denylist? && call.account in st.banned)
            && (g == Err(AccountNotAllowed) <==>
                  heard && call.AuthorizeTrustline? && call.account != w.self
                  && st.policy.Allowlist? && call.account !in st.allowed)
            && (g == Err(NoTrustline) <==>
                  heard && ((call.AuthorizeTrustline? && Admitted(st, call.account) && call.account != w.self
                             && !CanSet(w, call.account, true))
                            || (call.Deauthorize? && !CanSet(w, call.account, false))))
            && (g == Err(InvalidBatch) <==>
                  heard && BatchOf(call).Some? && !(0 < |BatchOf(call).value| <= 50))
            && (g == Err(PauseUnchanged) <==> heard && if st.paused then call.Pause? else call.Unpause?)
            && (g == Err(InvalidAmount) <==> heard && (call.MintTo? || call.ClawbackFrom?) && call.amount <= 0)
            && (g == Err(AssetRefused) <==>
                  heard && ((call.MintTo? && call.amount > 0
                             && TryMint(w.ledger, st.sac, w.self, call.account, call.amount).None?)
                            || (call.ClawbackFrom? && call.amount > 0
                                && TryClawback(w.ledger, st.sac, w.self, call.account, call.amount).None?)))
            && g != Err(NotSac)
  {
    hide CanSet;
    hide TryMint;
    hide TryClawback;
  }

  // ---- what an accepted call does ---------------------------------------------------------

  /** The storage after an accepted call, account by account. */
  lemma StorageExactly(st: Storage, call: Call, a: Address)
    ensures var st' := StorageAfter(st, call);
            && st'.sac == st.sac
            && st'.admin == (if call.SetAdmin? then call.newAdmin else st.admin)
            && st'.policy == (if call.SetPolicy? then call.policy else st.policy)
            && (st'.paused <==> call.Pause? || (st.paused && !call.Unpause?))
            && (a in st'.banned <==>
                  if call.AddBanned? || (call.Freeze? && st.policy.Denylist?) then a in st.banned || a in call.accounts
                  else if call.RemoveBanned? || (call.Unfreeze? && st.policy.Denylist?) then
                    a in st.banned && a !in call.accounts
                  else a in st.banned)
            && (a in st'.allowed <==>
                  if call.Allow? || (call.Unfreeze? && st.policy.Allowlist?) then a in st.allowed || a in call.accounts
                  else if call.Disallow? || (call.Freeze? && st.policy.Allowlist?) then
                    a in st.allowed && a !in call.accounts
                  else a in st.allowed)
  {
  }

  function SubjectOf(action: Action): Address {
    match action
    case AdminChanged(a) => a
    case Paused => Contract("")
    case Unpaused => Contract("")
    case PolicySet(_) => Contract("")
    case Upgraded(_) => Contract("")
    case _ => action.account
  }

  /** The call that a reader of its events would reconstruct. */
  function Told(events: seq<Event>): Option<Call> {
    if events == [] then None
    else
      var subjects := seq(|events|, i requires 0 <= i < |events| => SubjectOf(events[i].action));
      match events[0].action
      case Authorized(a, _) => Some(AuthorizeTrustline(a))
      case Deauthorized(a, r) => Some(Deauthorize(a, r))
      case Banned(_) => Some(AddBanned(subjects))
      case Unbanned(_) => Some(RemoveBanned(subjects))
      case Allowed(_) => Some(Allow(subjects))
      case Disallowed(_) => Some(Disallow(subjects))
      case Frozen(_, _, _) => Some(Freeze(subjects))
      case Unfrozen(_, _, _) => Some(Unfreeze(subjects))
      case Clawback(a, n) => Some(ClawbackFrom(a, n))
      case Minted(a, n) => Some(MintTo(a, n))
      case Paused => Some(Pause)
      case Unpaused => Some(Unpause)
      case PolicySet(p) => Some(SetPolicy(p))
      case AdminChanged(a) => Some(SetAdmin(a))
      case Upgraded(h) => Some(Upgrade(h))
  }

  /** Events tell exactly the call they come from, and carry the admin in office and the ledger's number. */
  lemma CallIsTold(w: World, call: Call, signers: set<Address>, seqno: nat)
    requires Guard(w, call, signers).Ok?
    ensures var log' := Apply(w, call, signers, seqno).0.log;
            && w.log <= log'
            && Told(log'[|w.log|..]) == Some(call)
            && forall i :: |w.log| <= i < |log'| ==> log'[i].admin == w.storage.admin && log'[i].seqno == seqno
  {
    AdmissionExactly(w, call, signers);
    hide Guard;
    hide CanSet;
    hide LedgerOf;
    var log' := Apply(w, call, signers, seqno).0.log;
    var events := EventsOf(w, call, seqno);
    assert log'[|w.log|..] == events;
    assert forall i :: |w.log| <= i < |log'| ==> log'[i] == events[i - |w.log|];
    if BatchOf(call).Some? {
      var subjects := seq(|events|, i requires 0 <= i < |events| => SubjectOf(events[i].action));
      assert subjects == BatchOf(call).value;
    }
  }

  // ---- lemmas for the loops ---------------------------------------------------------------

  lemma EmptyBatch(w: World, on: bool)
    ensures LedgerAfter(w, [], on) == w.ledger
    ensures Admit(w.storage, Elems<Address>([]), on) == w.storage
  {
    if IsSac(w.ledger, w.storage.sac) {
      var asset := AssetOf(w.ledger, w.storage.sac);
      assert PositionsAfter(w, [], on) == asset.positions;
      assert AssetAfter(w, [], on) == asset;
      assert w.ledger.assets[w.storage.sac.asset := asset] == w.ledger.assets;
    }
  }

  /** Earlier positions of a batch never change whether the SAC accepts a later one. */
  lemma StillSettable(w: World, batch: seq<Address>, on: bool, a: Address, on': bool)
    ensures CanSet(w.(ledger := LedgerAfter(w, batch, on)), a, on') == CanSet(w, a, on')
  {
  }

  lemma OneMorePosition(w: World, batch: seq<Address>, on: bool, a: Address)
    requires IsSac(w.ledger, w.storage.sac)
    ensures PositionsAfter(w, batch + [a], on)
            == if CanSet(w, a, on)
               then PositionsAfter(w, batch, on)[a := PositionOr(AssetAfter(w, batch, on), a).(authorized := on)]
               else PositionsAfter(w, batch, on)
  {
    assert forall x :: x in Elems(batch + [a]) <==> x in Elems(batch) || x == a;
  }

  /** Writing one more flag extends the closed form by one position of the batch, duplicate or not. */
  lemma OneMoreWrite(w: World, batch: seq<Address>, on: bool, a: Address)
    ensures var l := LedgerAfter(w, batch, on);
            LedgerAfter(w, batch + [a], on)
            == TrySetAuthorized(l, w.storage.sac, w.self, a, on).GetOr(l)
  {
    StillSettable(w, batch, on, a, on);
    assert (batch + [a])[..|batch|] == batch;
    if IsSac(w.ledger, w.storage.sac) {
      OneMorePosition(w, batch, on, a);
      assert AssetAfter(w, batch + [a], on)
          == if CanSet(w, a, on) then SetFlag(AssetAfter(w, batch, on), w.self, a, on) else AssetAfter(w, batch, on);
      TwoUpdates(w.ledger, w.storage.sac, AssetAfter(w, batch, on), AssetAfter(w, batch + [a], on));
    }
  }

  lemma TwoUpdates(l: Ledger, sac: Address, first: Asset, second: Asset)
    requires sac.SacOf?
    ensures WithAsset(WithAsset(l, sac, first), sac, second) == WithAsset(l, sac, second)
  {
    assert l.assets[sac.asset := first][sac.asset := second] == l.assets[sac.asset := second];
  }

  lemma OneEvent(w: World, call: Call, seqno: nat)
    requires BatchOf(call).None?
    ensures EventsOf(w, call, seqno) == [Event(ActionOf(w, call, 0), w.storage.admin, seqno)]
  {
  }

  function FreezeCall(batch: seq<Address>, on: bool): Call {
    if on then Unfreeze(batch) else Freeze(batch)
  }

  /** A freeze (or unfreeze) of a longer batch is one of the shorter batch followed by one account. */
  lemma OneMoreFreeze(w: World, batch: seq<Address>, on: bool, a: Address, seqno: nat)
    ensures var before := Effect(w, FreezeCall(batch, on), seqno);
            var done := CanSet(before, a, on);
            Effect(w, FreezeCall(batch + [a], on), seqno)
            == World(w.self,
                     Admit(before.storage, {a}, on),
                     TrySetAuthorized(before.ledger, w.storage.sac, w.self, a, on).GetOr(before.ledger),
                     before.log + [Event(if on then Unfrozen(a, done, w.storage.policy)
                                         else Frozen(a, done, w.storage.policy), w.storage.admin, seqno)])
  {
    OneMoreWrite(w, batch, on, a);
    StillSettable(w, batch, on, a, on);
    var before := Effect(w, FreezeCall(batch, on), seqno);
    var after := Effect(w, FreezeCall(batch + [a], on), seqno);
    assert CanSet(before, a, on) == CanSet(w, a, on);
    assert Elems(batch + [a]) == Elems(batch) + {a};
    assert after.storage == Admit(before.storage, {a}, on);
    var call, call' := FreezeCall(batch, on), FreezeCall(batch + [a], on);
    assert EventsOf(w, call', seqno)
        == EventsOf(w, call, seqno) + [Event(ActionOf(w, call', |batch|), w.storage.admin, seqno)];
    assert after.log == before.log + [Event(ActionOf(w, call', |batch|), w.storage.admin, seqno)];
  }
}
