/**
 Supply over whole runs: what the authorizer's calls do to balances, and what its Minted and Clawback
 events say about them. The issuer holds no balance in its own asset.
 */
module Supply {
  import opened StellarLedger
  import opened Authorizer
  import opened AuthorizerRuns
  import Router

  function BalanceOf(w: World, a: Address): int {
    if HasLine(w.ledger, w.storage.sac, a) then AssetOf(w.ledger, w.storage.sac).positions[a].balance else 0
  }

  function SuppliedBy(action: Action, a: Address): int {
    match action
    case Minted(b, n) => if a == b then n else 0
    case Clawback(b, n) => if a == b then -n else 0
    case _ => 0
  }

  /** What the log says was minted to an account, less what was clawed back from it. */
  function Supplied(log: seq<Event>, a: Address): int {
    if log == [] then 0
    else Supplied(log[..|log| - 1], a) + SuppliedBy(log[|log| - 1].action, a)
  }

  lemma {:induction false} SuppliedByNothing(log: seq<Event>, more: seq<Event>, a: Address)
    requires forall e :: e in more ==> SuppliedBy(e.action, a) == 0
    ensures Supplied(log + more, a) == Supplied(log, a)
  {
    if more == [] {
      assert log + more == log;
    } else {
      assert (log + more)[..|log + more| - 1] == log + more[..|more| - 1];
      SuppliedByNothing(log, more[..|more| - 1], a);
    }
  }

  lemma SuppliedByOne(log: seq<Event>, e: Event, a: Address)
    ensures Supplied(log + [e], a) == Supplied(log, a) + SuppliedBy(e.action, a)
  {
    assert (log + [e])[..|log|] == log;
  }

  /** Flag writes, single or batched, move no balance. */
  lemma FlagsMoveNothing(w: World, batch: seq<Address>, on: bool, a: Address)
    requires Managed(w)
    ensures BalanceOf(w.(ledger := LedgerAfter(w, batch, on)), a) == BalanceOf(w, a)
  {
  }

  lemma CallBalance(w: World, call: Call, a: Address, seqno: nat)
    requires Managed(w) && !IsIssuer(w.storage.sac, a)
    requires call.MintTo? ==> TryMint(w.ledger, w.storage.sac, w.self, call.account, call.amount).Some?
    requires call.ClawbackFrom? ==> TryClawback(w.ledger, w.storage.sac, w.self, call.account, call.amount).Some?
    ensures BalanceOf(Effect(w, call, seqno), a)
            == BalanceOf(w, a) + if BatchOf(call).Some? then 0 else SuppliedBy(ActionOf(w, call, 0), a)
  {
    if call.Freeze? || call.Unfreeze? {
      FlagsMoveNothing(w, call.accounts, call.Unfreeze?, a);
      hide LedgerAfter;
    }
  }

  lemma CallSupply(w: World, call: Call, signers: set<Address>, seqno: nat, a: Address)
    requires Managed(w) && !IsIssuer(w.storage.sac, a)
    ensures var w' := Apply(w, call, signers, seqno).0;
            BalanceOf(w', a) - BalanceOf(w, a) == Supplied(w'.log, a) - Supplied(w.log, a)
  {
    if Guard(w, call, signers).Ok? {
      CallBalance(w, call, a, seqno);
      if BatchOf(call).Some? {
        SuppliedByNothing(w.log, EventsOf(w, call, seqno), a);
      } else {
        OneEvent(w, call, seqno);
        SuppliedByOne(w.log, Event(ActionOf(w, call, 0), w.storage.admin, seqno), a);
      }
    }
  }

  lemma OnboardSupply(w: World, holder: Address, signed: bool, seqno: nat, a: Address)
    requires Managed(w) && !IsIssuer(w.storage.sac, a)
    ensures var w' := Router.OnboardHere(w, w.storage.sac, holder, signed, seqno).0;
            BalanceOf(w', a) - BalanceOf(w, a) == Supplied(w'.log, a) - Supplied(w.log, a)
  {
    hide Guard;
    hide Apply;
    hide Supplied;
    hide Router.OnboardHere;
    OnboardAsCall(w, holder, signed, seqno);
    if TryTrust(w.ledger, w.storage.sac, holder).Some? {
      var w1 := w.(ledger := TryTrust(w.ledger, w.storage.sac, holder).value);
      assert BalanceOf(w1, a) == BalanceOf(w, a);
      CallSupply(w1, AuthorizeTrustline(holder), {}, seqno, a);
    }
  }

  lemma StepSupply(w: World, s: Step, w': World, a: Address)
    requires Managed(w) && Transition(w, s, w') && !IsIssuer(w.storage.sac, a) && !s.Environment?
    ensures BalanceOf(w', a) - BalanceOf(w, a) == Supplied(w'.log, a) - Supplied(w.log, a)
  {
    hide Supplied;
    hide Apply;
    match s {
      case Invoke(call, signers, seqno) => CallSupply(w, call, signers, seqno, a);
      case OnboardHolder(holder, signed, seqno) => OnboardSupply(w, holder, signed, seqno, a);
    }
  }

  /**
   Conservation: over any run in which others leave a holder's balance alone, the balance moves by
   exactly what the events say was minted less what they say was clawed back, and by nothing else.
   */
  lemma {:induction false} BalanceIsSupplied(trace: seq<World>, steps: seq<Step>, k: nat, a: Address)
    requires IsRun(trace, steps) && k < |trace| && !IsIssuer(trace[0].storage.sac, a)
    requires forall i :: 0 <= i < k && steps[i].Environment? ==> BalanceOf(trace[i + 1], a) == BalanceOf(trace[i], a)
    ensures BalanceOf(trace[k], a) - BalanceOf(trace[0], a) == Supplied(trace[k].log, a) - Supplied(trace[0].log, a)
  {
    hide Managed;
    hide Supplied;
    hide BalanceOf;
    hide IsIssuer;
    if k > 0 {
      BalanceIsSupplied(trace, steps, k - 1, a);
      RunStaysManaged(trace, steps, k - 1);
      var w, s, w' := trace[k - 1], steps[k - 1], trace[k];
      assert Transition(w, s, w');
      if !s.Environment? {
        StepSupply(w, s, w', a);
      }
    }
  }

  /** A frozen holder is minted nothing before an admin step re-admits it. */
  lemma NothingMintedWhileFrozen(trace: seq<World>, steps: seq<Step>, i: nat, k: nat, a: Address, n: int,
                                 signers: set<Address>)
    requires IsRun(trace, steps) && i < k < |trace| && !IsIssuer(trace[0].storage.sac, a)
    requires steps[i].Invoke? && steps[i].call.Freeze? && a in steps[i].call.accounts
    requires Guard(trace[i], steps[i].call, steps[i].signers).Ok?
    requires !FlagOn(trace[i + 1], a)
    requires forall m :: i < m < k ==> !Readmits(trace[m], steps[m], a)
    ensures !Guard(trace[k], MintTo(a, n), signers).Ok?
  {
    FreezeHolds(trace, steps, i, k, a);
    RunStaysManaged(trace, steps, k);
    NoMintUnauthorized(trace[k], a, n, signers);
  }

  lemma NoMintUnauthorized(w: World, a: Address, n: int, signers: set<Address>)
    requires Managed(w) && !IsIssuer(w.storage.sac, a) && !FlagOn(w, a)
    ensures !Guard(w, MintTo(a, n), signers).Ok?
  {
  }
}
