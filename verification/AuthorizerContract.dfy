/**
 The Trustline Authorizer as the contract it is: entry points that update storage keys, loop over
 batches, write the SAC through the host and publish events one at a time. Each is proved to do
 exactly what `Authorizer.Apply` says of the same call.
 */
module AuthorizerContract {
  import opened Wrappers
  import opened StellarLedger
  import opened Authorizer

  class TrustlineAuthorizer {
    const self: Address
    const host: Host
    const sac: Address
    var admin: Address
    var policy: Policy
    var paused: bool
    var banned: set<Address>
    var allowed: set<Address>
    var log: seq<Event>

    function View(): World
      reads this, host
    {
      World(self, Storage(admin, sac, policy, paused, banned, allowed), host.ledger, log)
    }

    constructor (host: Host, self: Address, admin: Address, sac: Address, policy: Policy)
      ensures this.host == host
      ensures View() == World(self, Storage(admin, sac, policy, false, {}, {}), host.ledger, [])
    {
      this.host, this.self, this.sac, this.admin, this.policy := host, self, sac, admin, policy;
      paused, banned, allowed, log := false, {}, {}, [];
    }

    /** Deployment refuses any address that is not a built-in Stellar Asset Contract. */
    static method Deploy(host: Host, self: Address, admin: Address, sac: Address, policy: Policy)
      returns (c: TrustlineAuthorizer?, r: Outcome)
      ensures r == if IsSac(host.ledger, sac) then Ok else Err(NotSac)
      ensures c != null <==> r.Ok?
      ensures c != null ==>
                fresh(c) && c.host == host
                && c.View() == World(self, Storage(admin, sac, policy, false, {}, {}), host.ledger, [])
    {
      if ExecutableOf(host.ledger, sac) != Some(StellarAsset) {
        return null, Err(NotSac);
      }
      c := new TrustlineAuthorizer(host, self, admin, sac, policy);
      r := Ok;
    }

    // ---- internals ------------------------------------------------------------------------

    function RequireAdminEvenWhenPaused(signers: set<Address>): Outcome
      reads this
    {
      if admin in signers then Ok else Abort
    }

    function RequireAdmin(signers: set<Address>): Outcome
      reads this
    {
      if paused then Err(ContractPaused) else RequireAdminEvenWhenPaused(signers)
    }

    predicate GoodBatch(accounts: seq<Address>) {
      !(|accounts| == 0 || |accounts| > MAX_BATCH)
    }

    method Publish(action: Action, seqno: nat)
      modifies this`log
      ensures log == old(log) + [Event(action, admin, seqno)]
    {
      log := log + [Event(action, admin, seqno)];
    }

    method SetFlag(ban: bool, account: Address, on: bool)
      modifies this`banned, this`allowed
      ensures banned == if !ban then old(banned) else if on then old(banned) + {account} else old(banned) - {account}
      ensures allowed == if ban then old(allowed) else if on then old(allowed) + {account} else old(allowed) - {account}
    {
      if ban {
        banned := if on then banned + {account} else banned - {account};
      } else {
        allowed := if on then allowed + {account} else allowed - {account};
      }
    }

    // ---- the permissionless interface -----------------------------------------------------

    method AuthorizeTrustline(account: Address, ghost signers: set<Address>, seqno: nat) returns (r: Outcome)
      modifies this, host
      ensures (View(), r) == Apply(old(View()), Call.AuthorizeTrustline(account), signers, seqno)
    {
      OneEvent(View(), Call.AuthorizeTrustline(account), seqno);
      if paused {
        return Err(ContractPaused);
      }
      if account == self {
        return Err(CannotAuthorizeAdminContract);
      }
      var refusal := CheckPolicy(View().storage, account);
      if refusal.Some? {
        return Err(refusal.value);
      }
      var ok := host.TrySet(sac, self, account, true);
      if !ok {
        return Err(NoTrustline);
      }
      Publish(Authorized(account, policy), seqno);
      r := Ok;
    }

    // ---- policy list management -----------------------------------------------------------

    method AddBannedAccounts(accounts: seq<Address>, signers: set<Address>, seqno: nat) returns (r: Outcome)
      modifies this, host
      ensures (View(), r) == Apply(old(View()), Call.AddBanned(accounts), signers, seqno)
    {
      r := RequireAdmin(signers);
      if r != Ok {
        return;
      }
      if !GoodBatch(accounts) {
        return Err(InvalidBatch);
      }
      for i := 0 to |accounts|
        invariant View() == Effect(old(View()), Call.AddBanned(accounts[..i]), seqno)
      {
        assert accounts[..i + 1] == accounts[..i] + [accounts[i]];
        SetFlag(true, accounts[i], true);
        Publish(Banned(accounts[i]), seqno);
      }
      assert accounts[..|accounts|] == accounts;
    }

    method RemoveBannedAccounts(accounts: seq<Address>, signers: set<Address>, seqno: nat) returns (r: Outcome)
      modifies this, host
      ensures (View(), r) == Apply(old(View()), Call.RemoveBanned(accounts), signers, seqno)
    {
      r := RequireAdmin(signers);
      if r != Ok {
        return;
      }
      if !GoodBatch(accounts) {
        return Err(InvalidBatch);
      }
      for i := 0 to |accounts|
        invariant View() == Effect(old(View()), Call.RemoveBanned(accounts[..i]), seqno)
      {
        assert accounts[..i + 1] == accounts[..i] + [accounts[i]];
        SetFlag(true, accounts[i], false);
        Publish(Unbanned(accounts[i]), seqno);
      }
      assert accounts[..|accounts|] == accounts;
    }

    method AllowAccounts(accounts: seq<Address>, signers: set<Address>, seqno: nat) returns (r: Outcome)
      modifies this, host
      ensures (View(), r) == Apply(old(View()), Call.Allow(accounts), signers, seqno)
    {
      r := RequireAdmin(signers);
      if r != Ok {
        return;
      }
      if !GoodBatch(accounts) {
        return Err(InvalidBatch);
      }
      for i := 0 to |accounts|
        invariant View() == Effect(old(View()), Call.Allow(accounts[..i]), seqno)
      {
        assert accounts[..i + 1] == accounts[..i] + [accounts[i]];
        SetFlag(false, accounts[i], true);
        Publish(Allowed(accounts[i]), seqno);
      }
      assert accounts[..|accounts|] == accounts;
    }

    method DisallowAccounts(accounts: seq<Address>, signers: set<Address>, seqno: nat) returns (r: Outcome)
      modifies this, host
      ensures (View(), r) == Apply(old(View()), Call.Disallow(accounts), signers, seqno)
    {
      r := RequireAdmin(signers);
      if r != Ok {
        return;
      }
      if !GoodBatch(accounts) {
        return Err(InvalidBatch);
      }
      for i := 0 to |accounts|
        invariant View() == Effect(old(View()), Call.Disallow(accounts[..i]), seqno)
      {
        assert accounts[..i + 1] == accounts[..i] + [accounts[i]];
        SetFlag(false, accounts[i], false);
        Publish(Disallowed(accounts[i]), seqno);
      }
      assert accounts[..|accounts|] == accounts;
    }

    // ---- freeze and unfreeze --------------------------------------------------------------

    method FreezeAccounts(accounts: seq<Address>, signers: set<Address>, seqno: nat) returns (r: Outcome)
      modifies this, host
      ensures (View(), r) == Apply(old(View()), Call.Freeze(accounts), signers, seqno)
    {
      r := RequireAdmin(signers);
      if r != Ok {
        return;
      }
      if !GoodBatch(accounts) {
        return Err(InvalidBatch);
      }
      ghost var w := View();
      EmptyBatch(w, false);
      assert Effect(w, Call.Freeze(accounts[..0]), seqno) == w;
      assert Guard(w, Call.Freeze(accounts), signers).Ok?;
      hide Guard;
      hide Effect;
      hide TrySetAuthorized;
      for i := 0 to |accounts|
        invariant View() == Effect(w, Call.Freeze(accounts[..i]), seqno)
        invariant policy == w.storage.policy && admin == w.storage.admin
      {
        assert accounts[..i + 1] == accounts[..i] + [accounts[i]];
        ghost var before := View();
        OneMoreFreeze(w, accounts[..i], false, accounts[i], seqno);
        match policy {
          case Denylist => SetFlag(true, accounts[i], true);
          case Allowlist => SetFlag(false, accounts[i], false);
        }
        assert View() == before.(storage := Admit(before.storage, {accounts[i]}, false));
        var done := host.TrySet(sac, self, accounts[i], false);
        Publish(Frozen(accounts[i], done, policy), seqno);
      }
      assert accounts[..|accounts|] == accounts;
    }

    method UnfreezeAccounts(accounts: seq<Address>, signers: set<Address>, seqno: nat) returns (r: Outcome)
      modifies this, host
      ensures (View(), r) == Apply(old(View()), Call.Unfreeze(accounts), signers, seqno)
    {
      r := RequireAdmin(signers);
      if r != Ok {
        return;
      }
      if !GoodBatch(accounts) {
        return Err(InvalidBatch);
      }
      ghost var w := View();
      EmptyBatch(w, true);
      assert Effect(w, Call.Unfreeze(accounts[..0]), seqno) == w;
      assert Guard(w, Call.Unfreeze(accounts), signers).Ok?;
      hide Guard;
      hide Effect;
      hide TrySetAuthorized;
      for i := 0 to |accounts|
        invariant View() == Effect(w, Call.Unfreeze(accounts[..i]), seqno)
        invariant policy == w.storage.policy && admin == w.storage.admin
      {
        assert accounts[..i + 1] == accounts[..i] + [accounts[i]];
        ghost var before := View();
        OneMoreFreeze(w, accounts[..i], true, accounts[i], seqno);
        match policy {
          case Denylist => SetFlag(true, accounts[i], false);
          case Allowlist => SetFlag(false, accounts[i], true);
        }
        assert View() == before.(storage := Admit(before.storage, {accounts[i]}, true));
        var done := host.TrySet(sac, self, accounts[i], true);
        Publish(Unfrozen(accounts[i], done, policy), seqno);
      }
      assert accounts[..|accounts|] == accounts;
    }

    method DeauthorizeTrustline(account: Address, reason: Reason, signers: set<Address>, seqno: nat)
      returns (r: Outcome)
      modifies this, host
      ensures (View(), r) == Apply(old(View()), Call.Deauthorize(account, reason), signers, seqno)
    {
      OneEvent(View(), Call.Deauthorize(account, reason), seqno);
      r := RequireAdmin(signers);
      if r != Ok {
        return;
      }
      var ok := host.TrySet(sac, self, account, false);
      if !ok {
        return Err(NoTrustline);
      }
      Publish(Deauthorized(account, reason), seqno);
    }

    // ---- supply ---------------------------------------------------------------------------

    method MintToAccount(to: Address, amount: int, signers: set<Address>, seqno: nat) returns (r: Outcome)
      modifies this, host
      ensures (View(), r) == Apply(old(View()), Call.MintTo(to, amount), signers, seqno)
    {
      OneEvent(View(), Call.MintTo(to, amount), seqno);
      r := RequireAdmin(signers);
      if r != Ok {
        return;
      }
      if amount <= 0 {
        return Err(InvalidAmount);
      }
      var next := TryMint(host.ledger, sac, self, to, amount);
      if next.None? {
        return Err(AssetRefused);
      }
      host.ledger := next.value;
      Publish(Minted(to, amount), seqno);
    }

    method ClawbackFromAccount(from: Address, amount: int, signers: set<Address>, seqno: nat) returns (r: Outcome)
      modifies this, host
      ensures (View(), r) == Apply(old(View()), Call.ClawbackFrom(from, amount), signers, seqno)
    {
      OneEvent(View(), Call.ClawbackFrom(from, amount), seqno);
      r := RequireAdmin(signers);
      if r != Ok {
        return;
      }
      if amount <= 0 {
        return Err(InvalidAmount);
      }
      var next := TryClawback(host.ledger, sac, self, from, amount);
      if next.None? {
        return Err(AssetRefused);
      }
      host.ledger := next.value;
      Publish(Clawback(from, amount), seqno);
    }

    // ---- emergency stop and governance ----------------------------------------------------

    method PauseContract(signers: set<Address>, seqno: nat) returns (r: Outcome)
      modifies this, host
      ensures (View(), r) == Apply(old(View()), Call.Pause, signers, seqno)
    {
      OneEvent(View(), Call.Pause, seqno);
      r := RequireAdminEvenWhenPaused(signers);
      if r != Ok {
        return;
      }
      if paused {
        return Err(PauseUnchanged);
      }
      paused := true;
      Publish(Paused, seqno);
    }

    method UnpauseContract(signers: set<Address>, seqno: nat) returns (r: Outcome)
      modifies this, host
      ensures (View(), r) == Apply(old(View()), Call.Unpause, signers, seqno)
    {
      OneEvent(View(), Call.Unpause, seqno);
      r := RequireAdminEvenWhenPaused(signers);
      if r != Ok {
        return;
      }
      if !paused {
        return Err(PauseUnchanged);
      }
      paused := false;
      Publish(Unpaused, seqno);
    }

    /** The event names the outgoing admin, so it is published with the admin read before the write. */
    method SetAdmin(newAdmin: Address, signers: set<Address>, seqno: nat) returns (r: Outcome)
      modifies this, host
      ensures (View(), r) == Apply(old(View()), Call.SetAdmin(newAdmin), signers, seqno)
    {
      OneEvent(View(), Call.SetAdmin(newAdmin), seqno);
      r := RequireAdminEvenWhenPaused(signers);
      if r != Ok {
        return;
      }
      var outgoing := admin;
      admin := newAdmin;
      log := log + [Event(AdminChanged(newAdmin), outgoing, seqno)];
    }

    method UpgradeContract(wasmHash: string, signers: set<Address>, seqno: nat) returns (r: Outcome)
      modifies this, host
      ensures (View(), r) == Apply(old(View()), Call.Upgrade(wasmHash), signers, seqno)
    {
      OneEvent(View(), Call.Upgrade(wasmHash), seqno);
      r := RequireAdminEvenWhenPaused(signers);
      if r != Ok {
        return;
      }
      Publish(Upgraded(wasmHash), seqno);
    }

    method SetPolicy(newPolicy: Policy, signers: set<Address>, seqno: nat) returns (r: Outcome)
      modifies this, host
      ensures (View(), r) == Apply(old(View()), Call.SetPolicy(newPolicy), signers, seqno)
    {
      OneEvent(View(), Call.SetPolicy(newPolicy), seqno);
      r := RequireAdmin(signers);
      if r != Ok {
        return;
      }
      policy := newPolicy;
      Publish(PolicySet(newPolicy), seqno);
    }

    // ---- read-only ------------------------------------------------------------------------

    /** The preview is exact: it holds just when a call that finds a settable position would succeed. */
    method IsEligible(account: Address) returns (yes: bool)
      ensures yes == Eligible(View(), account)
      ensures forall signers :: Guard(View(), Call.AuthorizeTrustline(account), signers).Ok?
                                <==> yes && CanSet(View(), account, true)
    {
      yes := !paused && account != self && CheckPolicy(View().storage, account).None?;
    }
  }
}
