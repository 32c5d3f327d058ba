/**
 The authorizer's event log as the only record of its history: an auditor who folds the published
 events from the constructor arguments reaches exactly the contract's state and exactly the flag
 writes the SAC saw, and every event names the admin and policy in force when it happened.
 */
module AuditLog {
  import opened Wrappers
  import opened StellarLedger
  import opened Authorizer
  import opened AuthorizerRuns
  import Router

  /** What can be rebuilt from the log: the storage, and the SAC's record of the contract's flag writes. */
  datatype Audit = Audit(
    self: Address, admin: Address, policy: Policy, paused: bool, banned: set<Address>, allowed: set<Address>,
    writes: seq<FlagWrite>)

  function Recorded(self: Address, done: bool, a: Address, on: bool): seq<FlagWrite> {
    if done then [FlagWrite(self, a, on)] else []
  }

  function ReplayOne(s: Audit, action: Action): Audit {
    match action
    case Authorized(a, _) => s.(writes := s.writes + Recorded(s.self, true, a, true))
    case Deauthorized(a, _) => s.(writes := s.writes + Recorded(s.self, true, a, false))
    case Banned(a) => s.(banned := s.banned + {a})
    case Unbanned(a) => s.(banned := s.banned - {a})
    case Allowed(a) => s.(allowed := s.allowed + {a})
    case Disallowed(a) => s.(allowed := s.allowed - {a})
    case Frozen(a, done, p) =>
      var s' := s.(writes := s.writes + Recorded(s.self, done, a, false));
      if p == Denylist then s'.(banned := s.banned + {a}) else s'.(allowed := s.allowed - {a})
    case Unfrozen(a, done, p) =>
      var s' := s.(writes := s.writes + Recorded(s.self, done, a, true));
      if p == Denylist then s'.(banned := s.banned - {a}) else s'.(allowed := s.allowed + {a})
    case Paused => s.(paused := true)
    case Unpaused => s.(paused := false)
    case PolicySet(p) => s.(policy := p)
    case AdminChanged(a) => s.(admin := a)
    case _ => s
  }

  function Replay(start: Audit, log: seq<Event>): Audit {
    if log == [] then start
    else ReplayOne(Replay(start, log[..|log| - 1]), log[|log| - 1].action)
  }

  function Snapshot(w: World): Audit
    requires IsSac(w.ledger, w.storage.sac)
  {
    Audit(w.self, w.storage.admin, w.storage.policy, w.storage.paused, w.storage.banned, w.storage.allowed,
          OwnWrites(w))
  }

  /**
   What an auditor can check of one event against the state rebuilt from the events before it: the
   admin it names was in office, the policy it names was in force, nothing but recovery happened
   while paused, and nobody was authorized against the policy.
   */
  predicate Lawful(s: Audit, e: Event) {
    && e.admin == s.admin
    && (s.paused ==> e.action.Unpaused? || e.action.AdminChanged? || e.action.Upgraded?)
    && match e.action
       case Authorized(a, p) => p == s.policy && if p == Denylist then a !in s.banned else a in s.allowed
       case Frozen(_, _, p) => p == s.policy
       case Unfrozen(_, _, p) => p == s.policy
       case Paused => !s.paused
       case Unpaused => s.paused
       case _ => true
  }

  ghost predicate Audited(start: Audit, w: World) {
    && IsSac(w.ledger, w.storage.sac)
    && Replay(start, w.log) == Snapshot(w)
    && forall i :: 0 <= i < |w.log| ==> Lawful(Replay(start, w.log[..i]), w.log[i])
  }

  // ---- a batch is the sequence of its positions -------------------------------------------

  function WithBatch(call: Call, b: seq<Address>): Call
    requires BatchOf(call).Some?
  {
    match call
    case AddBanned(_) => AddBanned(b)
    case RemoveBanned(_) => RemoveBanned(b)
    case Allow(_) => Allow(b)
    case Disallow(_) => Disallow(b)
    case Freeze(_) => Freeze(b)
    case Unfreeze(_) => Unfreeze(b)
  }

  lemma LoggedLast(w: World, call: Call, b: seq<Address>, a: Address, seqno: nat)
    requires BatchOf(call).Some?
    ensures EventsOf(w, WithBatch(call, b + [a]), seqno)
            == EventsOf(w, WithBatch(call, b), seqno)
               + [Event(ActionOf(w, WithBatch(call, [a]), 0), w.storage.admin, seqno)]
  {
  }

  /** The state after a position: the storage and ledger its own effect leaves, and its event logged. */
  function Position(w: World, call: Call, seqno: nat): World
    requires BatchOf(call).Some? ==> |BatchOf(call).value| == 1
  {
    World(w.self, StorageAfter(w.storage, call), LedgerOf(w, call),
          w.log + [Event(ActionOf(w, call, 0), w.storage.admin, seqno)])
  }

  lemma FreezeIsSequence(w: World, b: seq<Address>, on: bool, a: Address, seqno: nat)
    ensures Effect(w, FreezeCall(b + [a], on), seqno)
            == Position(Effect(w, FreezeCall(b, on), seqno), FreezeCall([a], on), seqno)
  {
    hide LedgerAfter;
    hide CanSet;
    hide TrySetAuthorized;
    var before := Effect(w, FreezeCall(b, on), seqno);
    OneMoreFreeze(w, b, on, a, seqno);
    OneMoreWrite(before, [], on, a);
    EmptyBatch(before, on);
    assert [] + [a] == [a] && Elems([a]) == {a};
  }

  lemma BatchIsSequence(w: World, call: Call, b: seq<Address>, a: Address, seqno: nat)
    requires BatchOf(call).Some?
    ensures Effect(w, WithBatch(call, b + [a]), seqno)
            == Position(Effect(w, WithBatch(call, b), seqno), WithBatch(call, [a]), seqno)
  {
    if call.Freeze? || call.Unfreeze? {
      FreezeIsSequence(w, b, call.Unfreeze?, a, seqno);
    } else {
      LoggedLast(w, call, b, a, seqno);
      assert Elems(b + [a]) == Elems(b) + {a} && Elems([a]) == {a};
    }
  }

  // ---- one event at a time ----------------------------------------------------------------

  lemma Extend(start: Audit, log: seq<Event>, e: Event)
    requires forall i :: 0 <= i < |log| ==> Lawful(Replay(start, log[..i]), log[i])
    requires Lawful(Replay(start, log), e)
    ensures Replay(start, log + [e]) == ReplayOne(Replay(start, log), e.action)
    ensures forall i :: 0 <= i < |log + [e]| ==> Lawful(Replay(start, (log + [e])[..i]), (log + [e])[i])
  {
    assert (log + [e])[..|log|] == log;
    forall i | 0 <= i < |log + [e]|
      ensures Lawful(Replay(start, (log + [e])[..i]), (log + [e])[i])
    {
      assert i < |log| ==> (log + [e])[..i] == log[..i];
    }
  }

  lemma OneOwnWrite(w: World, a: Address, on: bool)
    requires IsSac(w.ledger, w.storage.sac)
    ensures var w' := w.(ledger := LedgerAfter(w, [a], on));
            && IsSac(w'.ledger, w'.storage.sac)
            && OwnWrites(w') == OwnWrites(w) + Recorded(w.self, CanSet(w, a, on), a, on)
  {
    hide WritesBy;
    hide WritesOf;
    hide PositionsAfter;
    hide CanSet;
    BatchWritesAreOwn(w, [a], on);
    WritesByConcat(AssetOf(w.ledger, w.storage.sac).writes, WritesOf(w, [a], on), w.self);
    OneWriteOf(w, a, on);
  }

  lemma OneWriteOf(w: World, a: Address, on: bool)
    ensures WritesOf(w, [a], on) == Recorded(w.self, CanSet(w, a, on), a, on)
  {
    hide CanSet;
    assert [a][..0] == [] && WritesOf(w, [], on) == [];
  }

  /** One published event accounts for all that its call (or batch position) changed. */
  lemma FreezePosition(w: World, a: Address, on: bool, seqno: nat)
    requires IsSac(w.ledger, w.storage.sac)
    ensures var call := FreezeCall([a], on);
            var w' := Position(w, call, seqno);
            IsSac(w'.ledger, w'.storage.sac) && Snapshot(w') == ReplayOne(Snapshot(w), ActionOf(w, call, 0))
  {
    OneOwnWrite(w, a, on);
    hide LedgerAfter;
    hide CanSet;
    hide WritesBy;
    var b := [a];
    assert Elems(b) == {a};
    var w' := Position(w, FreezeCall(b, on), seqno);
    assert w'.ledger == LedgerAfter(w, b, on);
    assert OwnWrites(w') == OwnWrites(w.(ledger := w'.ledger));
  }

  lemma ListPosition(w: World, call: Call, a: Address, seqno: nat)
    requires IsSac(w.ledger, w.storage.sac)
    requires call == AddBanned([a]) || call == RemoveBanned([a]) || call == Allow([a]) || call == Disallow([a])
    ensures var w' := Position(w, call, seqno);
            IsSac(w'.ledger, w'.storage.sac) && Snapshot(w') == ReplayOne(Snapshot(w), ActionOf(w, call, 0))
  {
    assert Elems([a]) == {a};
  }

  lemma WritePosition(w: World, call: Call, a: Address, seqno: nat)
    requires IsSac(w.ledger, w.storage.sac)
    requires call == AuthorizeTrustline(a) || (call.Deauthorize? && call.account == a)
    requires CanSet(w, a, call.AuthorizeTrustline?)
    ensures var w' := Position(w, call, seqno);
            IsSac(w'.ledger, w'.storage.sac) && Snapshot(w') == ReplayOne(Snapshot(w), ActionOf(w, call, 0))
  {
    var ws, write := AssetOf(w.ledger, w.storage.sac).writes, FlagWrite(w.self, a, call.AuthorizeTrustline?);
    assert (ws + [write])[..|ws|] == ws;
  }

  lemma SinglePosition(w: World, call: Call, seqno: nat)
    requires IsSac(w.ledger, w.storage.sac) && BatchOf(call).None?
    requires call.AuthorizeTrustline? || call.Deauthorize? ==> CanSet(w, call.account, call.AuthorizeTrustline?)
    ensures var w' := Position(w, call, seqno);
            IsSac(w'.ledger, w'.storage.sac) && Snapshot(w') == ReplayOne(Snapshot(w), ActionOf(w, call, 0))
  {
    if call.AuthorizeTrustline? || call.Deauthorize? {
      WritePosition(w, call, call.account, seqno);
    }
    hide WritesBy;
  }

  lemma Appended(start: Audit, w: World, call: Call, seqno: nat)
    requires Audited(start, w)
    requires BatchOf(call).Some? ==> |BatchOf(call).value| == 1
    requires Lawful(Snapshot(w), Event(ActionOf(w, call, 0), w.storage.admin, seqno))
    requires var w' := Position(w, call, seqno);
             IsSac(w'.ledger, w'.storage.sac) && Snapshot(w') == ReplayOne(Snapshot(w), ActionOf(w, call, 0))
    ensures Audited(start, Position(w, call, seqno))
  {
    Extend(start, w.log, Event(ActionOf(w, call, 0), w.storage.admin, seqno));
  }

  lemma NextPosition(start: Audit, w: World, call: Call, a: Address, seqno: nat)
    requires Audited(start, w) && BatchOf(call).Some? && !w.storage.paused
    ensures var w' := Position(w, WithBatch(call, [a]), seqno);
            Audited(start, w') && !w'.storage.paused
  {
    if call.Freeze? || call.Unfreeze? {
      FreezePosition(w, a, call.Unfreeze?, seqno);
    } else {
      ListPosition(w, WithBatch(call, [a]), a, seqno);
    }
    Appended(start, w, WithBatch(call, [a]), seqno);
  }

  lemma NoPosition(w: World, call: Call, seqno: nat)
    requires BatchOf(call).Some?
    ensures Effect(w, WithBatch(call, []), seqno) == w
  {
    EmptyBatch(w, false);
    EmptyBatch(w, true);
    assert Elems<Address>([]) == {};
    assert w.log + EventsOf(w, WithBatch(call, []), seqno) == w.log;
  }

  lemma {:induction false} BatchAudited(start: Audit, w: World, call: Call, b: seq<Address>, seqno: nat)
    requires Audited(start, w) && BatchOf(call).Some? && !w.storage.paused
    ensures Audited(start, Effect(w, WithBatch(call, b), seqno))
    ensures !Effect(w, WithBatch(call, b), seqno).storage.paused
  {
    if b == [] {
      NoPosition(w, call, seqno);
    } else {
      var front, a := b[..|b| - 1], b[|b| - 1];
      assert front + [a] == b;
      BatchAudited(start, w, call, front, seqno);
      BatchIsSequence(w, call, front, a, seqno);
      NextPosition(start, Effect(w, WithBatch(call, front), seqno), call, a, seqno);
    }
  }

  lemma AllowedIsLawful(w: World, call: Call, signers: set<Address>, seqno: nat)
    requires IsSac(w.ledger, w.storage.sac) && BatchOf(call).None? && Guard(w, call, signers).Ok?
    ensures Lawful(Snapshot(w), Event(ActionOf(w, call, 0), w.storage.admin, seqno))
    ensures call.AuthorizeTrustline? || call.Deauthorize? ==> CanSet(w, call.account, call.AuthorizeTrustline?)
  {
  }

  lemma CallAudited(start: Audit, w: World, call: Call, signers: set<Address>, seqno: nat)
    requires Audited(start, w)
    ensures Audited(start, Apply(w, call, signers, seqno).0)
  {
    if Guard(w, call, signers).Ok? {
      if BatchOf(call).Some? {
        assert WithBatch(call, BatchOf(call).value) == call;
        assert !w.storage.paused;
        BatchAudited(start, w, call, BatchOf(call).value, seqno);
      } else {
        OneEvent(w, call, seqno);
        AllowedIsLawful(w, call, signers, seqno);
        SinglePosition(w, call, seqno);
        Appended(start, w, call, seqno);
        hide Guard;
        hide Audited;
        hide StorageAfter;
        hide LedgerOf;
        hide ActionOf;
        assert Effect(w, call, seqno) == Position(w, call, seqno);
      }
    }
  }

  lemma OnboardAudited(start: Audit, w: World, holder: Address, signed: bool, seqno: nat)
    requires Administers(w) && Audited(start, w)
    ensures Audited(start, Router.OnboardHere(w, w.storage.sac, holder, signed, seqno).0)
  {
    OnboardAsCall(w, holder, signed, seqno);
    if TryTrust(w.ledger, w.storage.sac, holder).Some? {
      var w1 := w.(ledger := TryTrust(w.ledger, w.storage.sac, holder).value);
      assert Snapshot(w1) == Snapshot(w);
      CallAudited(start, w1, AuthorizeTrustline(holder), {}, seqno);
      hide Apply;
      hide Guard;
      hide Router.OnboardHere;
    }
  }

  lemma StepAudited(start: Audit, w: World, s: Step, w': World)
    requires Happens(w, s, w') && Audited(start, w)
    ensures Audited(start, w')
  {
    if s.Invoke? {
      CallAudited(start, w, s.call, s.signers, s.seqno);
    } else if s.OnboardHolder? && Administers(w) {
      OnboardAudited(start, w, s.holder, s.signed, s.seqno);
    } else {
      assert Elsewhere(w, w');
      assert Snapshot(w') == Snapshot(w);
    }
  }

  /** The state an auditor starts from: the constructor arguments, and no write yet by the new contract. */
  function Constructed(self: Address, admin: Address, policy: Policy): Audit {
    Audit(self, admin, policy, false, {}, {}, [])
  }

  /** A contract as the constructor leaves it, on a SAC that nobody has handed to it yet or that somebody has. */
  predicate JustDeployed(w: World) {
    && IsSac(w.ledger, w.storage.sac) && OwnWrites(w) == []
    && w == World(w.self, Storage(w.storage.admin, w.storage.sac, w.storage.policy, false, {}, {}), w.ledger, [])
  }

  lemma DeployedIsAudited(w: World)
    requires JustDeployed(w)
    ensures Audited(Constructed(w.self, w.storage.admin, w.storage.policy), w)
  {
  }

  /**
   From the constructor arguments alone: in every state of every history since deployment, whoever
   administers the SAC meanwhile, the events fold to the contract's storage and to the SAC's record of its
   writes, and every single event is lawful where it stands.
   */
  lemma {:induction false} LogDeterminesState(trace: seq<World>, steps: seq<Step>, k: nat)
    requires IsHistory(trace, steps) && k < |trace| && JustDeployed(trace[0])
    ensures Audited(Constructed(trace[0].self, trace[0].storage.admin, trace[0].storage.policy), trace[k])
  {
    hide Happens;
    hide Audited;
    hide JustDeployed;
    if k == 0 {
      DeployedIsAudited(trace[0]);
    } else {
      LogDeterminesState(trace, steps, k - 1);
      StepAudited(Constructed(trace[0].self, trace[0].storage.admin, trace[0].storage.policy),
                  trace[k - 1], steps[k - 1], trace[k]);
    }
  }

  // ---- per account ------------------------------------------------------------------------

  /** The last flag an account was given, if any. */
  function LastWrite(writes: seq<FlagWrite>, a: Address): Option<bool> {
    if writes == [] then None
    else if writes[|writes| - 1].account == a then Some(writes[|writes| - 1].on)
    else LastWrite(writes[..|writes| - 1], a)
  }

  /** An account that holds the flag is one the record last switched on. */
  predicate Explained(w: World, a: Address)
    requires IsSac(w.ledger, w.storage.sac)
  {
    FlagOn(w, a) ==> LastWrite(AssetOf(w.ledger, w.storage.sac).writes, a) == Some(true)
  }

  lemma {:induction false} LastWriteOfBatch(w: World, batch: seq<Address>, on: bool, before: seq<FlagWrite>, a: Address)
    ensures LastWrite(before + WritesOf(w, batch, on), a)
            == if a in batch && CanSet(w, a, on) then Some(on) else LastWrite(before, a)
  {
    if batch == [] {
      assert before + WritesOf(w, batch, on) == before;
    } else {
      var front, last := batch[..|batch| - 1], batch[|batch| - 1];
      LastWriteOfBatch(w, front, on, before, a);
      assert batch == front + [last];
      var ws := before + WritesOf(w, front, on);
      if CanSet(w, last, on) {
        assert before + WritesOf(w, batch, on) == ws + [FlagWrite(w.self, last, on)];
        assert (ws + [FlagWrite(w.self, last, on)])[..|ws|] == ws;
      } else {
        assert before + WritesOf(w, batch, on) == ws;
      }
    }
  }

  lemma FlagAfterBatch(w: World, batch: seq<Address>, on: bool, a: Address)
    requires Managed(w)
    ensures FlagOn(w.(ledger := LedgerAfter(w, batch, on)), a)
            == if a in batch && CanSet(w, a, on) then on else FlagOn(w, a)
  {
  }

  lemma BatchExplained(w: World, batch: seq<Address>, on: bool, seqno: nat, a: Address)
    requires Managed(w) && Explained(w, a)
    ensures var w' := Effect(w, FreezeCall(batch, on), seqno);
            IsSac(w'.ledger, w'.storage.sac) && Explained(w', a)
  {
    var w1 := w.(ledger := LedgerAfter(w, batch, on));
    var w' := Effect(w, FreezeCall(batch, on), seqno);
    FlagAfterBatch(w, batch, on, a);
    LastWriteOfBatch(w, batch, on, AssetOf(w.ledger, w.storage.sac).writes, a);
    hide PositionsAfter;
    hide CanSet;
    hide LastWrite;
    assert w'.ledger == w1.ledger && w'.storage.sac == w.storage.sac;
    assert FlagOn(w', a) == FlagOn(w1, a);
  }

  lemma WriteExplained(w: World, l: Ledger, b: Address, on: bool, a: Address)
    requires Managed(w) && Explained(w, a)
    requires TrySetAuthorized(w.ledger, w.storage.sac, w.self, b, on) == Some(l)
    ensures Managed(w.(ledger := l)) && Explained(w.(ledger := l), a)
  {
    var ws := AssetOf(w.ledger, w.storage.sac).writes;
    assert (ws + [FlagWrite(w.self, b, on)])[..|ws|] == ws;
  }

  lemma CallExplained(w: World, call: Call, signers: set<Address>, seqno: nat, a: Address)
    requires Managed(w) && Explained(w, a)
    ensures Managed(Apply(w, call, signers, seqno).0) && Explained(Apply(w, call, signers, seqno).0, a)
  {
    CallKeepsManaged(w, call, signers, seqno);
    if Guard(w, call, signers).Ok? {
      if call.Freeze? || call.Unfreeze? {
        BatchExplained(w, call.accounts, call.Unfreeze?, seqno, a);
      } else if call.AuthorizeTrustline? || call.Deauthorize? {
        WriteExplained(w, LedgerOf(w, call), call.account, call.AuthorizeTrustline?, a);
      } else {
        OtherCallsWriteNothing(w, call, signers, seqno, a);
      }
    }
  }

  lemma OtherCallsWriteNothing(w: World, call: Call, signers: set<Address>, seqno: nat, a: Address)
    requires Managed(w) && Guard(w, call, signers).Ok?
    requires !(call.Freeze? || call.Unfreeze? || call.AuthorizeTrustline? || call.Deauthorize?)
    ensures var w' := Effect(w, call, seqno);
            && IsSac(w'.ledger, w.storage.sac)
            && AssetOf(w'.ledger, w.storage.sac).writes == AssetOf(w.ledger, w.storage.sac).writes
            && FlagOn(w', a) == FlagOn(w, a)
  {
  }

  lemma OnboardExplained(w: World, holder: Address, signed: bool, seqno: nat, a: Address)
    requires Managed(w) && Explained(w, a)
    ensures var w' := Router.OnboardHere(w, w.storage.sac, holder, signed, seqno).0;
            Managed(w') && Explained(w', a)
  {
    OnboardAsCall(w, holder, signed, seqno);
    if TryTrust(w.ledger, w.storage.sac, holder).Some? {
      var w1 := w.(ledger := TryTrust(w.ledger, w.storage.sac, holder).value);
      assert Managed(w1) && Explained(w1, a);
      CallExplained(w1, AuthorizeTrustline(holder), {}, seqno, a);
    }
  }

  lemma StepExplained(w: World, s: Step, w': World, a: Address)
    requires Managed(w) && Transition(w, s, w') && Explained(w, a)
    ensures Managed(w') && Explained(w', a)
  {
    match s {
      case Invoke(call, signers, seqno) => CallExplained(w, call, signers, seqno, a);
      case OnboardHolder(holder, signed, seqno) => OnboardExplained(w, holder, signed, seqno, a);
      case Environment =>
    }
  }

  /**
   The log's last word covers the ledger: at any point of any run, an account holds the authorized flag
   only if the last flag event about it switched it on (the reverse fails when the holder drops its line).
   */
  lemma {:induction false} LastWordCoversLedger(trace: seq<World>, steps: seq<Step>, k: nat, a: Address)
    requires IsRun(trace, steps) && k < |trace| && Explained(trace[0], a)
    ensures Managed(trace[k]) && Explained(trace[k], a)
  {
    if k > 0 {
      LastWordCoversLedger(trace, steps, k - 1, a);
      StepExplained(trace[k - 1], steps[k - 1], trace[k], a);
    }
  }
}
