/**
 The onboarding router: CAP-73 `trust`, discovery of the SAC admin on chain, `authorize_trustline`
 through whatever contract that admin is, and the classification of what came back. The discovered
 contract is an arbitrary transformer of the world; the host undoes a callee that failed and the
 whole invocation when the router itself returns an error.
 */
module Router {
  import opened Wrappers
  import opened StellarLedger
  import Auth = Authorizer

  type World = Auth.World

  /** How a try-call of another contract ends. An untyped failure covers a missing export and a panic. */
  datatype CallOutcome = Returned | TypedError | Untyped

  /** The code behind the discovered admin address, as called on the holder. */
  type AuthorizerCode = World -> (World, CallOutcome)

  datatype RouterResult =
    | Authorized | TrustlineOnly
    | NotSac | TrustFailed | AuthorizationRefused | NotAuthorized
    | Aborted

  predicate IsOk(r: RouterResult) {
    r.Authorized? || r.TrustlineOnly?
  }

  function AdminOf(l: Ledger, sac: Address): Address
    requires IsSac(l, sac)
  {
    AssetOf(l, sac).admin
  }

  /** The whole invocation as a function of the world. */
  function Onboard(w: World, code: AuthorizerCode, sac: Address, holder: Address, signed: bool)
    : (World, RouterResult)
  {
    if !signed then (w, Aborted)
    else if !IsSac(w.ledger, sac) then (w, NotSac)
    else
      match TryTrust(w.ledger, sac, holder)
      case None => (w, TrustFailed)
      case Some(l1) =>
        var w1 := w.(ledger := l1);
        match AuthorizedView(l1, sac, holder)
        case None => (w, Aborted)
        case Some(true) => (w1, Authorized)
        case Some(false) =>
          if ExecutableOf(l1, AdminOf(l1, sac)) != Some(Executable.Wasm) then (w1, TrustlineOnly)
          else
            match code(w1)
            case (w2, Returned) =>
              (match AuthorizedView(w2.ledger, sac, holder)
               case Some(true) => (w2, Authorized)
               case Some(false) => (w, NotAuthorized)
               case None => (w, Aborted))
            case (_, TypedError) => (w, AuthorizationRefused)
            case (_, Untyped) => (w1, TrustlineOnly)
  }

  /** The running chain: the one thing a contract invocation changes. */
  class Machine {
    var world: World

    constructor (world: World)
      ensures this.world == world
    {
      this.world := world;
    }

    /** Call a contract whose failure the caller catches: a failed callee leaves no effect. */
    method TryCall(code: AuthorizerCode) returns (outcome: CallOutcome)
      modifies this
      ensures outcome == code(old(world)).1
      ensures world == if outcome.Returned? then code(old(world)).0 else old(world)
    {
      var (next, o) := code(world);
      if o.Returned? {
        world := next;
      }
      outcome := o;
    }
  }

  class TrustlineOnboard {
    /** The contract body, step by step, with its effects left standing on every path. */
    static method Body(m: Machine, code: AuthorizerCode, sac: Address, holder: Address, signed: bool)
      returns (r: RouterResult)
      modifies m
      ensures r == Onboard(old(m.world), code, sac, holder, signed).1
      ensures IsOk(r) ==> m.world == Onboard(old(m.world), code, sac, holder, signed).0
    {
      if !signed {
        return Aborted;
      }
      if ExecutableOf(m.world.ledger, sac) != Some(StellarAsset) {
        return NotSac;
      }
      var trusted := TryTrust(m.world.ledger, sac, holder);
      if trusted.None? {
        return TrustFailed;
      }
      m.world := m.world.(ledger := trusted.value);
      var view := AuthorizedView(m.world.ledger, sac, holder);
      if view.None? {
        return Aborted;
      }
      if view.value {
        return Authorized;
      }
      var admin := AdminOf(m.world.ledger, sac);
      if ExecutableOf(m.world.ledger, admin) != Some(Executable.Wasm) {
        return TrustlineOnly;
      }
      var outcome := m.TryCall(code);
      match outcome {
        case Returned =>
          view := AuthorizedView(m.world.ledger, sac, holder);
          r := if view == Some(true) then Authorized else if view == Some(false) then NotAuthorized else Aborted;
        case TypedError => r := AuthorizationRefused;
        case Untyped => r := TrustlineOnly;
      }
    }

    /** The host's frame around the body: an error undoes every effect the body had. */
    static method Invoke(m: Machine, code: AuthorizerCode, sac: Address, holder: Address, signed: bool)
      returns (r: RouterResult)
      modifies m
      ensures (m.world, r) == Onboard(old(m.world), code, sac, holder, signed)
    {
      var before := m.world;
      r := Body(m, code, sac, holder, signed);
      if !IsOk(r) {
        m.world := before;
      }
    }
  }

  // ---- the router is truthful for any authorizer ------------------------------------------

  lemma AfterTrust(l: Ledger, sac: Address, holder: Address)
    requires TryTrust(l, sac, holder).Some?
    ensures var l1 := TryTrust(l, sac, holder).value;
            && IsSac(l1, sac)
            && !IsIssuer(sac, holder)
            && (holder.Account? ==> HasLine(l1, sac, holder))
            && AuthorizedView(l1, sac, holder).Some?
            && (forall a :: a != holder ==> AuthorizedView(l1, sac, a) == AuthorizedView(l, sac, a))
            && AdminOf(l1, sac) == AdminOf(l, sac)
            && l1.wasm == l.wasm
  {
  }

  /**
   Whatever the discovered contract does, the status reported is the status of the final ledger, a
   trustline reported as kept is there and unauthorized, and any error leaves the world as it was.
   */
  lemma Truthful(w: World, code: AuthorizerCode, sac: Address, holder: Address, signed: bool)
    ensures var (w', r) := Onboard(w, code, sac, holder, signed);
            && (r.Authorized? ==> AuthorizedView(w'.ledger, sac, holder) == Some(true))
            && (r.TrustlineOnly? ==>
                  && AuthorizedView(w'.ledger, sac, holder) == Some(false)
                  && (holder.Account? ==> HasLine(w'.ledger, sac, holder))
                  && TryTrust(w.ledger, sac, holder) == Some(w'.ledger)
                  && w' == w.(ledger := w'.ledger))
            && (!IsOk(r) ==> w' == w)
            && (IsOk(r) ==> signed)
  {
    if IsSac(w.ledger, sac) && TryTrust(w.ledger, sac, holder).Some? {
      AfterTrust(w.ledger, sac, holder);
    }
  }

  /** The router gets to ask the SAC admin: signed, the line opened, and the view on it false. */
  predicate Asks(w: World, sac: Address, holder: Address, signed: bool) {
    && signed && IsSac(w.ledger, sac) && TryTrust(w.ledger, sac, holder).Some?
    && AuthorizedView(TryTrust(w.ledger, sac, holder).value, sac, holder) == Some(false)
  }

  /**
   How what came back is classified, for any admin code: a missing interface, whether by the kind of the
   admin or by an untyped failure, keeps the line; a typed error refuses; a return is judged by the view.
   */
  lemma Classification(w: World, code: AuthorizerCode, sac: Address, holder: Address)
    requires Asks(w, sac, holder, true)
    ensures var l1 := TryTrust(w.ledger, sac, holder).value;
            var w1 := w.(ledger := l1);
            var wasm := ExecutableOf(l1, AdminOf(l1, sac)) == Some(Executable.Wasm);
            var (w2, outcome) := code(w1);
            var view := AuthorizedView(w2.ledger, sac, holder);
            var (w', r) := Onboard(w, code, sac, holder, true);
            && (r.TrustlineOnly? <==> !wasm || outcome.Untyped?)
            && (r.AuthorizationRefused? <==> wasm && outcome.TypedError?)
            && (r.Authorized? <==> wasm && outcome.Returned? && view == Some(true))
            && (r.NotAuthorized? <==> wasm && outcome.Returned? && view == Some(false))
            && (r.Aborted? <==> wasm && outcome.Returned? && view.None?)
            && w' == if r.TrustlineOnly? then w1 else if r.Authorized? then w2 else w
  {
    AfterTrust(w.ledger, sac, holder);
    hide TryTrust;
    hide AuthorizedView;
    hide ExecutableOf;
  }

  /** And what is answered without asking. */
  lemma BeforeAsking(w: World, code: AuthorizerCode, sac: Address, holder: Address, signed: bool)
    requires !Asks(w, sac, holder, signed)
    ensures var trusted := TryTrust(w.ledger, sac, holder);
            var (w', r) := Onboard(w, code, sac, holder, signed);
            && (r.Aborted? <==> !signed)
            && (r.NotSac? <==> signed && !IsSac(w.ledger, sac))
            && (r.TrustFailed? <==> signed && IsSac(w.ledger, sac) && trusted.None?)
            && (r.Authorized? <==> signed && IsSac(w.ledger, sac) && trusted.Some?)
            && w' == if r.Authorized? then w.(ledger := trusted.value) else w
  {
    if signed && IsSac(w.ledger, sac) && TryTrust(w.ledger, sac, holder).Some? {
      AfterTrust(w.ledger, sac, holder);
    }
    hide TryTrust;
    hide AuthorizedView;
  }

  /** Onboarding an onboarded holder again changes nothing, even if the admin contract was replaced. */
  lemma Idempotent(w: World, code: AuthorizerCode, again: AuthorizerCode, sac: Address, holder: Address)
    requires Onboard(w, code, sac, holder, true).1.Authorized?
    ensures var w' := Onboard(w, code, sac, holder, true).0;
            Onboard(w', again, sac, holder, true) == (w', Authorized)
  {
    AfterTrust(w.ledger, sac, holder);
    Truthful(w, code, sac, holder, true);
  }

  // ---- composed with the Trustline Authorizer ---------------------------------------------

  /** The Trustline Authorizer as the discovered code: its refusals are typed contract errors. */
  function AuthorizerAt(holder: Address, seqno: nat): AuthorizerCode {
    (w: World) =>
      match Auth.Apply(w, Auth.AuthorizeTrustline(holder), {}, seqno)
      case (w', Ok) => (w', Returned)
      case (_, Err(_)) => (w, TypedError)
      case (_, Abort) => (w, Untyped)
  }

  function OnboardHere(w: World, sac: Address, holder: Address, signed: bool, seqno: nat): (World, RouterResult) {
    Onboard(w, AuthorizerAt(holder, seqno), sac, holder, signed)
  }

  /** How the authorizer answers the router: success exactly for an eligible holder it can set, else a typed refusal. */
  lemma AuthorizerAnswers(w: World, holder: Address, seqno: nat)
    ensures var (w', o) := AuthorizerAt(holder, seqno)(w);
            && !o.Untyped?
            && (o.Returned? <==> Auth.Eligible(w, holder) && Auth.CanSet(w, holder, true))
            && (o.Returned? ==>
                  w' == w.(ledger := w'.ledger,
                           log := w.log
                                  + [Auth.Event(Auth.Authorized(holder, w.storage.policy), w.storage.admin, seqno)])
                  && TrySetAuthorized(w.ledger, w.storage.sac, w.self, holder, true) == Some(w'.ledger))
  {
    Auth.OneEvent(w, Auth.AuthorizeTrustline(holder), seqno);
  }

  /** With this authorizer as SAC admin a refusal is never mistaken for a missing interface. */
  lemma NeverTrustlineOnly(w: World, sac: Address, holder: Address, signed: bool, seqno: nat)
    requires IsSac(w.ledger, sac) && AdminOf(w.ledger, sac) == w.self && w.self.Contract? && w.self in w.ledger.wasm
    ensures !OnboardHere(w, sac, holder, signed, seqno).1.TrustlineOnly?
  {
    hide Auth.Apply;
    if TryTrust(w.ledger, sac, holder).Some? {
      AfterTrust(w.ledger, sac, holder);
      AuthorizerAnswers(w.(ledger := TryTrust(w.ledger, sac, holder).value), holder, seqno);
    }
  }

  /**
   When it also manages that SAC and the line can be opened, onboarding succeeds exactly for a
   holder that is authorized once the line exists or that the policy admits, and is otherwise
   refused with the line rolled back.
   */
  lemma OnboardFollowsPolicy(w: World, sac: Address, holder: Address, seqno: nat)
    requires IsSac(w.ledger, sac) && AdminOf(w.ledger, sac) == w.self && w.self.Contract? && w.self in w.ledger.wasm
    requires w.storage.sac == sac
    requires TryTrust(w.ledger, sac, holder).Some?
    ensures var (w', r) := OnboardHere(w, sac, holder, true, seqno);
            var already := AuthorizedView(TryTrust(w.ledger, sac, holder).value, sac, holder) == Some(true);
            && (r.Authorized? <==> already || Auth.Eligible(w, holder))
            && (r.Authorized? || (r.AuthorizationRefused? && w' == w))
            && (r.Authorized? && !already ==>
                  w'.log == w.log + [Auth.Event(Auth.Authorized(holder, w.storage.policy), w.storage.admin, seqno)])
            && (already ==> w'.log == w.log)
            && w'.storage == w.storage
  {
    hide Auth.Apply;
    AfterTrust(w.ledger, sac, holder);
    var w1 := w.(ledger := TryTrust(w.ledger, sac, holder).value);
    assert Auth.CanSet(w1, holder, true);
    AuthorizerAnswers(w1, holder, seqno);
  }
}
