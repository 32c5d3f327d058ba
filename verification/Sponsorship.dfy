/**
 Sponsored onboarding: the vetter an operations account runs before it signs, the builder of the two
 shapes, and what an accepted envelope can do to the ledger under CAP-33. Operations that neither
 shape uses appear only by name; the vetter refuses them and they are not executed here.
 */
module Sponsorship {
  import opened Wrappers
  import opened StellarLedger

  datatype TrustLineAsset = Line(asset: AssetId) | PoolShare

  /** One authorization entry of a Soroban invocation: source-account or address credentials. */
  datatype AuthEntry = SourceCredentials | AddressCredentials(address: Address)

  /** A contract argument: one whose native form reads as an address, or anything else. */
  datatype Arg = Reads(address: Address) | Opaque

  /** An absent source means the transaction's; an absent limit is the largest. Amounts are stroops. */
  datatype Op =
    | BeginSponsoring(source: Option<string>, sponsoredId: string)
    | EndSponsoring(source: Option<string>)
    | CreateAccount(source: Option<string>, destination: string, startingBalance: int)
    | ChangeTrust(source: Option<string>, line: TrustLineAsset, limit: Option<int>)
    | InvokeContract(source: Option<string>, contract: Address, function_: string, args: seq<Arg>, auth: seq<AuthEntry>)
    | OtherOp(source: Option<string>, kind: string)

  /** A signature is known to the code only by its hint. */
  datatype Tx = Tx(source: string, fee: int, ops: seq<Op>, signatures: seq<int>)

  datatype Envelope = Plain(tx: Tx) | FeeBump(feeSource: string, fee: int, inner: Tx, signatures: seq<int>)

  datatype Verdict = Safe | Unsafe

  function SourceOf(op: Op, tx: Tx): string {
    op.source.GetOr(tx.source)
  }

  // ---- the vetter -------------------------------------------------------------------------

  predicate OpensLine(op: Op, tx: Tx, user: string, asset: AssetId) {
    op.ChangeTrust? && op.line == Line(asset) && op.limit != Some(0) && SourceOf(op, tx) == user
  }

  predicate CreatesUser(op: Op, tx: Tx, sponsor: string, user: string) {
    op.CreateAccount? && op.destination == user && op.startingBalance == 0 && SourceOf(op, tx) == sponsor
  }

  /** What the vetter accepts, as one statement about the list. */
  ghost predicate SafeToSponsor(tx: Tx, sponsor: string, user: string, asset: AssetId) {
    var n := |tx.ops|;
    && (tx.source == sponsor || tx.source == user)
    && n >= 3
    && tx.ops[0].BeginSponsoring? && tx.ops[0].sponsoredId == user && SourceOf(tx.ops[0], tx) == sponsor
    && tx.ops[n - 1].EndSponsoring? && SourceOf(tx.ops[n - 1], tx) == user
    && (exists i :: 1 <= i < n - 1 && OpensLine(tx.ops[i], tx, user, asset)
                    && forall j :: 1 <= j < n - 1 && j != i ==> CreatesUser(tx.ops[j], tx, sponsor, user))
  }

  lemma FaultInside(tx: Tx, sponsor: string, user: string, asset: AssetId, j: nat)
    requires 1 <= j < |tx.ops| - 1
    requires !OpensLine(tx.ops[j], tx, user, asset) && !CreatesUser(tx.ops[j], tx, sponsor, user)
    ensures !SafeToSponsor(tx, sponsor, user, asset)
  {
    hide OpensLine;
    hide CreatesUser;
  }

  /** With both ends and every middle operation in order, what is left to ask is a single trustline. */
  lemma OneTrustline(tx: Tx, sponsor: string, user: string, asset: AssetId)
    requires tx.source == sponsor || tx.source == user
    requires |tx.ops| >= 3
    requires tx.ops[0].BeginSponsoring? && tx.ops[0].sponsoredId == user && SourceOf(tx.ops[0], tx) == sponsor
    requires tx.ops[|tx.ops| - 1].EndSponsoring? && SourceOf(tx.ops[|tx.ops| - 1], tx) == user
    requires forall j :: 1 <= j < |tx.ops| - 1 ==>
               OpensLine(tx.ops[j], tx, user, asset) || CreatesUser(tx.ops[j], tx, sponsor, user)
    ensures SafeToSponsor(tx, sponsor, user, asset)
            <==> exists i :: 1 <= i < |tx.ops| - 1 && tx.ops[i].ChangeTrust?
                             && forall j :: 1 <= j < |tx.ops| - 1 && j != i ==> !tx.ops[j].ChangeTrust?
  {
  }

  /** The loop of the vetter: one pass over the middle with a counter, stopping at the first fault. */
  method AssertSafeToSponsor(env: Envelope, sponsor: string, user: string, asset: AssetId) returns (v: Verdict)
    ensures v.Safe? <==> env.Plain? && SafeToSponsor(env.tx, sponsor, user, asset)
  {
    if env.FeeBump? {
      return Unsafe;
    }
    var tx := env.tx;
    if tx.source != sponsor && tx.source != user {
      return Unsafe;
    }
    var ops := tx.ops;
    if |ops| < 3 {
      return Unsafe;
    }
    var first := ops[0];
    if !first.BeginSponsoring? || first.sponsoredId != user || SourceOf(first, tx) != sponsor {
      return Unsafe;
    }
    var last := ops[|ops| - 1];
    if !last.EndSponsoring? || SourceOf(last, tx) != user {
      return Unsafe;
    }
    hide SafeToSponsor;
    var trustlines := 0;
    ghost var at := 0;
    for i := 1 to |ops| - 1
      invariant forall j :: 1 <= j < i ==> OpensLine(ops[j], tx, user, asset) || CreatesUser(ops[j], tx, sponsor, user)
      invariant trustlines >= 0
      invariant trustlines == 0 ==> forall j :: 1 <= j < i ==> !ops[j].ChangeTrust?
      invariant trustlines == 1 ==> 1 <= at < i && ops[at].ChangeTrust?
                                    && forall j :: 1 <= j < i && j != at ==> !ops[j].ChangeTrust?
      invariant trustlines > 1 ==> exists j, k :: 1 <= j < k < i && ops[j].ChangeTrust? && ops[k].ChangeTrust?
    {
      var op := ops[i];
      if op.ChangeTrust? {
        trustlines := trustlines + 1;
        if op.line.PoolShare? || op.line.asset != asset || op.limit == Some(0) || SourceOf(op, tx) != user {
          FaultInside(tx, sponsor, user, asset, i);
          return Unsafe;
        }
        if trustlines == 1 {
          at := i;
        }
      } else if op.CreateAccount? {
        if op.destination != user || op.startingBalance != 0 || SourceOf(op, tx) != sponsor {
          FaultInside(tx, sponsor, user, asset, i);
          return Unsafe;
        }
      } else {
        FaultInside(tx, sponsor, user, asset, i);
        return Unsafe;
      }
    }
    OneTrustline(tx, sponsor, user, asset);
    v := if trustlines != 1 then Unsafe else Safe;
  }

  /** The accepted lists, written out: one opening of the line between account creations, inside the window. */
  predicate Sandwich(tx: Tx, sponsor: string, user: string, asset: AssetId,
                     first: Op, before: seq<Op>, trust: Op, after: seq<Op>, last: Op)
  {
    && tx.ops == [first] + before + [trust] + after + [last]
    && first == BeginSponsoring(first.source, user) && first.source.GetOr(tx.source) == sponsor
    && trust.ChangeTrust? && trust.line == Line(asset) && trust.source.GetOr(tx.source) == user
    && trust.limit != Some(0)
    && last == EndSponsoring(last.source) && last.source.GetOr(tx.source) == user
    && forall op :: op in before + after ==>
         op == CreateAccount(op.source, user, 0) && op.source.GetOr(tx.source) == sponsor
  }

  /** The vetter's rule is exactly that form, from either side. */
  lemma SafeIsSandwich(tx: Tx, sponsor: string, user: string, asset: AssetId)
    ensures SafeToSponsor(tx, sponsor, user, asset)
            <==> (tx.source == sponsor || tx.source == user)
                 && exists first, before, trust, after, last ::
                      Sandwich(tx, sponsor, user, asset, first, before, trust, after, last)
  {
    if SafeToSponsor(tx, sponsor, user, asset) {
      SafeIsCut(tx, sponsor, user, asset);
    }
    if tx.source == sponsor || tx.source == user {
      forall first, before, trust, after, last | Sandwich(tx, sponsor, user, asset, first, before, trust, after, last)
        ensures SafeToSponsor(tx, sponsor, user, asset)
      {
        SandwichIsSafe(tx, sponsor, user, asset, first, before, trust, after, last);
      }
    }
  }

  /** Nothing in an accepted list deletes a line. */
  lemma NeverZeroLimit(tx: Tx, sponsor: string, user: string, asset: AssetId)
    requires SafeToSponsor(tx, sponsor, user, asset)
    ensures forall op :: op in tx.ops && op.ChangeTrust? ==> op.limit != Some(0)
  {
    forall i | 0 <= i < |tx.ops| && tx.ops[i].ChangeTrust?
      ensures tx.ops[i].limit != Some(0)
    {
      MiddleOps(tx, sponsor, user, asset, i);
    }
  }

  lemma AroundTheLine(ops: seq<Op>, tx: Tx, sponsor: string, user: string, i: nat)
    requires 1 <= i < |ops| - 1
    requires forall j :: 1 <= j < |ops| - 1 && j != i ==> CreatesUser(ops[j], tx, sponsor, user)
    ensures ops == [ops[0]] + ops[1..i] + [ops[i]] + ops[i + 1..|ops| - 1] + [ops[|ops| - 1]]
    ensures forall op :: op in ops[1..i] + ops[i + 1..|ops| - 1] ==> CreatesUser(op, tx, sponsor, user)
  {
    hide CreatesUser;
    var middle := ops[1..i] + ops[i + 1..|ops| - 1];
    forall k | 0 <= k < |middle|
      ensures CreatesUser(middle[k], tx, sponsor, user)
    {
      assert middle[k] == ops[if k < i - 1 then k + 1 else k + 2];
    }
  }

  lemma SafeIsCut(tx: Tx, sponsor: string, user: string, asset: AssetId)
    requires SafeToSponsor(tx, sponsor, user, asset)
    ensures exists first, before, trust, after, last ::
              Sandwich(tx, sponsor, user, asset, first, before, trust, after, last)
  {
    var ops, n := tx.ops, |tx.ops|;
    var i :| 1 <= i < n - 1 && OpensLine(ops[i], tx, user, asset)
             && forall j :: 1 <= j < n - 1 && j != i ==> CreatesUser(ops[j], tx, sponsor, user);
    AroundTheLine(ops, tx, sponsor, user, i);
    hide SafeToSponsor;
    var first, trust, last, others := ops[0], ops[i], ops[n - 1], ops[1..i] + ops[i + 1..n - 1];
    assert first == BeginSponsoring(first.source, user) && last == EndSponsoring(last.source);
    forall op | op in others
      ensures op == CreateAccount(op.source, user, 0) && op.source.GetOr(tx.source) == sponsor
    {
      assert CreatesUser(op, tx, sponsor, user);
    }
    assert Sandwich(tx, sponsor, user, asset, first, ops[1..i], trust, ops[i + 1..n - 1], last);
  }

  lemma SandwichIsSafe(tx: Tx, sponsor: string, user: string, asset: AssetId,
                       first: Op, before: seq<Op>, trust: Op, after: seq<Op>, last: Op)
    requires tx.source == sponsor || tx.source == user
    requires Sandwich(tx, sponsor, user, asset, first, before, trust, after, last)
    ensures SafeToSponsor(tx, sponsor, user, asset)
  {
    var ops, n, i := tx.ops, |tx.ops|, |before| + 1;
    assert n == |before| + |after| + 3 && ops[0] == first && ops[i] == trust && ops[n - 1] == last;
    assert OpensLine(ops[i], tx, user, asset);
    forall j | 1 <= j < n - 1 && j != i
      ensures CreatesUser(ops[j], tx, sponsor, user)
    {
      assert ops[j] == if j < i then before[j - 1] else after[j - i - 1];
      assert ops[j] in before + after;
    }
  }

  // ---- the builder ------------------------------------------------------------------------

  datatype Role = AsSponsor | AsUser

  const BASE_FEE := 100

  /** None is the builder's refusal: an account that does not exist yet cannot source a transaction. */
  method BuildSponsoredOnboard(sponsor: string, user: string, asset: AssetId, createUserAccount: bool, role: Role)
    returns (r: Option<Tx>)
    ensures r.None? <==> role.AsUser? && createUserAccount
    ensures r.Some? ==> r == Some(SponsoredTx(sponsor, user, asset, createUserAccount, role))
  {
    if role.AsUser? && createUserAccount {
      return None;
    }
    var source := if role.AsSponsor? then sponsor else user;
    var asSponsor := if role.AsSponsor? then None else Some(sponsor);
    var asUser := if role.AsUser? then None else Some(user);
    var ops := [BeginSponsoring(asSponsor, user)];
    if createUserAccount {
      ops := ops + [CreateAccount(asSponsor, user, 0)];
    }
    ops := ops + [ChangeTrust(asUser, Line(asset), None)];
    ops := ops + [EndSponsoring(asUser)];
    assert ops == SponsoredOps(sponsor, user, asset, createUserAccount, role);
    r := Some(Tx(source, BASE_FEE * |ops|, ops, []));
  }

  function SponsoredOps(sponsor: string, user: string, asset: AssetId, create: bool, role: Role): seq<Op> {
    var asSponsor := if role.AsSponsor? then None else Some(sponsor);
    var asUser := if role.AsUser? then None else Some(user);
    if create
    then [BeginSponsoring(asSponsor, user), CreateAccount(asSponsor, user, 0),
          ChangeTrust(asUser, Line(asset), None), EndSponsoring(asUser)]
    else [BeginSponsoring(asSponsor, user), ChangeTrust(asUser, Line(asset), None), EndSponsoring(asUser)]
  }

  function SponsoredTx(sponsor: string, user: string, asset: AssetId, create: bool, role: Role): Tx {
    var ops := SponsoredOps(sponsor, user, asset, create, role);
    Tx(if role.AsSponsor? then sponsor else user, BASE_FEE * |ops|, ops, [])
  }

  /** A built envelope is one of the two shapes at the minimal fee, naming a source only where it must. */
  lemma BuiltIsMinimal(sponsor: string, user: string, asset: AssetId, create: bool, role: Role)
    requires sponsor != user
    ensures var tx := SponsoredTx(sponsor, user, asset, create, role);
            && tx.source == (if role.AsSponsor? then sponsor else user)
            && OnboardingShape(tx.ops) && |tx.ops| == (if create then 4 else 3)
            && tx.fee == 100 * |tx.ops| && tx.signatures == []
            && (forall op :: op in tx.ops && op.source.Some? ==> op.source.value != tx.source)
            && (forall op :: op in tx.ops && op.ChangeTrust? ==> op.line == Line(asset) && op.limit.None?)
  {
    var tx := SponsoredTx(sponsor, user, asset, create, role);
    assert forall op :: op in tx.ops <==> op == tx.ops[0] || op == tx.ops[1] || op == tx.ops[2]
                                          || op == tx.ops[|tx.ops| - 1];
  }

  /** Everything the builder produces passes the vetter, for every asset and either source. */
  lemma BuiltIsSafe(sponsor: string, user: string, asset: AssetId, create: bool, role: Role, signatures: seq<int>)
    requires !(role.AsUser? && create)
    ensures SafeToSponsor(SponsoredTx(sponsor, user, asset, create, role).(signatures := signatures),
                          sponsor, user, asset)
  {
    var tx := SponsoredTx(sponsor, user, asset, create, role).(signatures := signatures);
    assert OpensLine(tx.ops[if create then 2 else 1], tx, user, asset);
    assert create ==> CreatesUser(tx.ops[1], tx, sponsor, user);
  }

  // ---- the documented shapes against the accepted ones ------------------------------------

  /** The two shapes the SDK produces, up to explicit sources and limits. */
  predicate OnboardingShape(ops: seq<Op>) {
    || (|ops| == 3 && ops[0].BeginSponsoring? && ops[1].ChangeTrust? && ops[2].EndSponsoring?)
    || (|ops| == 4 && ops[0].BeginSponsoring? && ops[1].CreateAccount? && ops[2].ChangeTrust? && ops[3].EndSponsoring?)
  }

  /** The list alone is not "exactly the two shapes": account creations may repeat or come late. */
  lemma AcceptsOtherShapes()
    ensures exists tx, sponsor, user, asset ::
              sponsor != user && SafeToSponsor(tx, sponsor, user, asset) && !OnboardingShape(tx.ops)
  {
    var sponsor, user, asset := "GOPS", "GUSER", Credit("EURCV", "GISSUER");
    var create := CreateAccount(None, user, 0);
    var tx := Tx(sponsor, 500,
                 [BeginSponsoring(None, user), create, create, ChangeTrust(Some(user), Line(asset), None),
                  EndSponsoring(Some(user))], []);
    assert OpensLine(tx.ops[3], tx, user, asset);
    assert SafeToSponsor(tx, sponsor, user, asset) && !OnboardingShape(tx.ops);
  }

  /** Exactly when an accepted list is one of the documented shapes. */
  lemma ShapeOfAccepted(tx: Tx, sponsor: string, user: string, asset: AssetId)
    requires SafeToSponsor(tx, sponsor, user, asset)
    ensures OnboardingShape(tx.ops) <==> |tx.ops| == 3 || (|tx.ops| == 4 && tx.ops[1].CreateAccount?)
  {
    var i :| 1 <= i < |tx.ops| - 1 && OpensLine(tx.ops[i], tx, user, asset)
             && forall j :: 1 <= j < |tx.ops| - 1 && j != i ==> CreatesUser(tx.ops[j], tx, sponsor, user);
    if |tx.ops| == 4 {
      assert i == 1 || i == 2;
    }
  }

  // ---- execution under CAP-33 -------------------------------------------------------------

  /** The ledger in the middle of a transaction, with the sponsorships open at that point. */
  datatype Exec = Exec(ledger: Ledger, open: map<string, string>)

  function WithAccount(l: Ledger, k: string, e: AccountEntry): Ledger {
    l.(accounts := l.accounts[k := e])
  }

  /** Charge n reserves for an entry of `owner` to its open sponsor, who must be able to lock them. */
  function ChargeSponsor(l: Ledger, sponsor: string, n: nat): Option<Ledger> {
    if sponsor !in l.accounts || Available(l.accounts[sponsor]) < n * BASE_RESERVE then None
    else Some(WithAccount(l, sponsor, l.accounts[sponsor].(sponsoring := l.accounts[sponsor].sponsoring + n)))
  }

  function ExecCreate(s: Exec, src: string, dest: string, start: int): Option<Exec> {
    var l := s.ledger;
    if src !in l.accounts || dest in l.accounts || start < 0 || Available(l.accounts[src]) < start then None
    else
      var l1 := WithAccount(l, src, l.accounts[src].(balance := l.accounts[src].balance - start));
      if dest in s.open then
        match ChargeSponsor(l1, s.open[dest], 2)
        case None => None
        case Some(l2) => Some(s.(ledger := WithAccount(l2, dest, AccountEntry(start, 0, 2, 0))))
      else if start < 2 * BASE_RESERVE then None
      else Some(s.(ledger := WithAccount(l1, dest, AccountEntry(start, 0, 0, 0))))
  }

  /** The asset once the user's line is there with the given limit: as it was, or fresh and sponsored as given. */
  function Opened(asset: Asset, user: string, sponsor: Option<string>, limit: int): Asset {
    var line := if Account(user) in asset.positions then asset.positions[Account(user)]
                else NewLine(asset).(sponsor := sponsor);
    asset.(positions := asset.positions[Account(user) := line.(limit := limit)])
  }

  /** An empty line taken away, its reserve given back to whoever carried it. */
  function Delete(l: Ledger, id: AssetId, user: string): Option<Ledger>
    requires id in l.assets && user in l.accounts && Account(user) in l.assets[id].positions
  {
    var asset, e := l.assets[id], l.accounts[user];
    var line := asset.positions[Account(user)];
    var l1 := l.(assets := l.assets[id := asset.(positions := asset.positions - {Account(user)})]);
    if line.balance != 0 || e.subEntries == 0 then None
    else
      match line.sponsor
      case None => Some(WithAccount(l1, user, e.(subEntries := e.subEntries - 1)))
      case Some(k) =>
        if k == user || k !in l.accounts || l.accounts[k].sponsoring == 0 || e.sponsored == 0 then None
        else
          var l2 := WithAccount(l1, user, e.(subEntries := e.subEntries - 1, sponsored := e.sponsored - 1));
          Some(WithAccount(l2, k, l.accounts[k].(sponsoring := l.accounts[k].sponsoring - 1)))
  }

  /** A zero limit deletes the line; any other opens it or sets its limit. */
  function ExecTrust(s: Exec, src: string, line: TrustLineAsset, limit: Option<int>): Option<Exec> {
    var l := s.ledger;
    if line.PoolShare? || line.asset.Native? || line.asset.issuer == src || line.asset !in l.assets then None
    else if src !in l.accounts || (limit.Some? && limit.value < 0) then None
    else
      var asset := l.assets[line.asset];
      var holder := Account(src);
      if holder in asset.positions then
        if limit == Some(0) then
          match Delete(l, line.asset, src)
          case None => None
          case Some(l1) => Some(s.(ledger := l1))
        else if limit.Some? && limit.value < asset.positions[holder].balance then None
        else Some(s.(ledger := WithAsset(l, SacOf(line.asset), Opened(asset, src, None, limit.GetOr(I64_MAX)))))
      else if limit == Some(0) then None
      else
        var charged := if src in s.open then ChargeSponsor(l, s.open[src], 1)
                       else if Available(l.accounts[src]) < BASE_RESERVE then None else Some(l);
        match charged
        case None => None
        case Some(l1) =>
          var e := l1.accounts[src];
          var e' := e.(subEntries := e.subEntries + 1, sponsored := e.sponsored + if src in s.open then 1 else 0);
          var payer := if src in s.open then Some(s.open[src]) else None;
          Some(s.(ledger := WithAsset(WithAccount(l1, src, e'), SacOf(line.asset),
                                      Opened(asset, src, payer, limit.GetOr(I64_MAX)))))
  }

  /** None is a failed operation, which fails its transaction. */
  function ExecOp(s: Exec, txSource: string, op: Op): Option<Exec> {
    var src := op.source.GetOr(txSource);
    if src !in s.ledger.accounts then None
    else
      match op
      case BeginSponsoring(_, id) =>
        if src == id || id in s.open || src in s.open || id in s.open.Values then None
        else Some(s.(open := s.open[id := src]))
      case EndSponsoring(_) => if src in s.open then Some(s.(open := s.open - {src})) else None
      case CreateAccount(_, dest, start) => ExecCreate(s, src, dest, start)
      case ChangeTrust(_, line, limit) => ExecTrust(s, src, line, limit)
      case _ => None
  }

  function ExecOps(s: Exec, txSource: string, ops: seq<Op>): Option<Exec> {
    if ops == [] then Some(s)
    else
      match ExecOps(s, txSource, ops[..|ops| - 1])
      case None => None
      case Some(s') => ExecOp(s', txSource, ops[|ops| - 1])
  }

  function PayFee(l: Ledger, payer: string, fee: int): Option<Ledger> {
    if payer !in l.accounts || fee < 0 || Available(l.accounts[payer]) < fee then None
    else Some(WithAccount(l, payer, l.accounts[payer].(balance := l.accounts[payer].balance - fee)))
  }

  /** A transaction that succeeds: the fee is taken, every operation applies, no sponsorship stays open. */
  function ExecTx(l: Ledger, tx: Tx): Option<Ledger> {
    match PayFee(l, tx.source, tx.fee)
    case None => None
    case Some(l1) =>
      match ExecOps(Exec(l1, map[]), tx.source, tx.ops)
      case None => None
      case Some(s) => if s.open == map[] then Some(s.ledger) else None
  }

  // ---- what an accepted envelope can cost -------------------------------------------------

  lemma {:induction false} AccountsStay(s: Exec, txSource: string, ops: seq<Op>, j: nat)
    requires j <= |ops| && ExecOps(s, txSource, ops).Some?
    ensures ExecOps(s, txSource, ops[..j]).Some?
    ensures ExecOps(s, txSource, ops[..j]).value.ledger.accounts.Keys
            <= ExecOps(s, txSource, ops).value.ledger.accounts.Keys
  {
    if j == |ops| {
      assert ops[..j] == ops;
    } else {
      var front := ops[..|ops| - 1];
      AccountsStay(s, txSource, front, j);
      assert front[..j] == ops[..j];
    }
  }

  lemma LastOp(s: Exec, txSource: string, ops: seq<Op>, j: nat)
    requires j < |ops| && ExecOps(s, txSource, ops).Some?
    ensures ExecOps(s, txSource, ops[..j]).Some? && ExecOps(s, txSource, ops[..j + 1]).Some?
    ensures ExecOps(s, txSource, ops[..j + 1]) == ExecOp(ExecOps(s, txSource, ops[..j]).value, txSource, ops[j])
  {
    AccountsStay(s, txSource, ops, j);
    AccountsStay(s, txSource, ops, j + 1);
    assert ops[..j + 1][..j] == ops[..j];
  }

  lemma OpAccounts(s: Exec, txSource: string, op: Op)
    requires ExecOp(s, txSource, op).Some?
    ensures op.source.GetOr(txSource) in s.ledger.accounts
    ensures s.ledger.accounts.Keys <= ExecOp(s, txSource, op).value.ledger.accounts.Keys
    ensures op.CreateAccount? ==>
              op.destination !in s.ledger.accounts
              && op.destination in ExecOp(s, txSource, op).value.ledger.accounts
  {
  }

  /** An account that an operation created or sourced is there ever after. */
  lemma ThereAfter(s: Exec, txSource: string, ops: seq<Op>, i: nat, j: nat, k: string)
    requires i < j <= |ops| && ExecOps(s, txSource, ops).Some?
    requires ops[i].source.GetOr(txSource) == k || (ops[i].CreateAccount? && ops[i].destination == k)
    ensures ExecOps(s, txSource, ops[..j]).Some?
    ensures k in ExecOps(s, txSource, ops[..j]).value.ledger.accounts
  {
    LastOp(s, txSource, ops, i);
    OpAccounts(ExecOps(s, txSource, ops[..i]).value, txSource, ops[i]);
    AccountsStay(s, txSource, ops, j);
    AccountsStay(s, txSource, ops[..j], i + 1);
    assert ops[..j][..i + 1] == ops[..i + 1];
  }

  lemma MiddleOps(tx: Tx, sponsor: string, user: string, asset: AssetId, j: nat)
    requires SafeToSponsor(tx, sponsor, user, asset) && 1 <= j < |tx.ops| - 1
    ensures OpensLine(tx.ops[j], tx, user, asset) || CreatesUser(tx.ops[j], tx, sponsor, user)
  {
  }

  lemma NoLateCreation(s: Exec, tx: Tx, sponsor: string, user: string, asset: AssetId, j: nat)
    requires SafeToSponsor(tx, sponsor, user, asset) && ExecOps(s, tx.source, tx.ops).Some?
    requires 2 <= j < |tx.ops| - 1
    ensures !tx.ops[j].CreateAccount?
  {
    MiddleOps(tx, sponsor, user, asset, 1);
    MiddleOps(tx, sponsor, user, asset, j);
    ThereAfter(s, tx.source, tx.ops, 1, j, user);
    LastOp(s, tx.source, tx.ops, j);
    OpAccounts(ExecOps(s, tx.source, tx.ops[..j]).value, tx.source, tx.ops[j]);
  }

  /** An accepted list of any length that executes at all is exactly one of the two onboarding shapes. */
  lemma ExecutedIsOnboarding(s: Exec, tx: Tx, sponsor: string, user: string, asset: AssetId)
    requires SafeToSponsor(tx, sponsor, user, asset) && ExecOps(s, tx.source, tx.ops).Some?
    ensures OnboardingShape(tx.ops)
  {
    var n := |tx.ops|;
    var i :| 1 <= i < n - 1 && OpensLine(tx.ops[i], tx, user, asset)
             && forall j :: 1 <= j < n - 1 && j != i ==> CreatesUser(tx.ops[j], tx, sponsor, user);
    if n >= 4 {
      NoLateCreation(s, tx, sponsor, user, asset, 2);
      assert i == 2;
      if n >= 5 {
        NoLateCreation(s, tx, sponsor, user, asset, 3);
        assert false;
      }
    }
  }

  // ---- the bill ---------------------------------------------------------------------------

  predicate HoldsLine(l: Ledger, asset: AssetId, user: string) {
    asset in l.assets && Account(user) in l.assets[asset].positions
  }

  /** Reserves a sandwich puts on the sponsor: two for a new account, one for a new trustline. */
  function ReservesFor(l: Ledger, asset: AssetId, user: string): nat {
    (if user in l.accounts then 0 else 2) + if HoldsLine(l, asset, user) then 0 else 1
  }

  function UserEntry(l: Ledger, user: string): AccountEntry {
    if user in l.accounts then l.accounts[user] else AccountEntry(0, 0, 2, 0)
  }

  /** The ledger after the operations of a sandwich, in closed form. */
  function Onboarded(l: Ledger, sponsor: string, user: string, asset: AssetId, limit: int): Ledger
    requires sponsor in l.accounts && asset in l.assets
  {
    var n := ReservesFor(l, asset, user);
    var m := if HoldsLine(l, asset, user) then 0 else 1;
    var e := UserEntry(l, user);
    l.(accounts := l.accounts[sponsor := l.accounts[sponsor].(sponsoring := l.accounts[sponsor].sponsoring + n)]
                             [user := e.(subEntries := e.subEntries + m, sponsored := e.sponsored + m)],
       assets := l.assets[asset := Opened(l.assets[asset], user, Some(sponsor), limit)])
  }

  lemma CreateInWindow(l: Ledger, sponsor: string, user: string)
    requires sponsor != user && sponsor in l.accounts
    ensures var s := Exec(l, map[user := sponsor]);
            var r := ExecCreate(s, sponsor, user, 0);
            && (r.Some? <==> user !in l.accounts && Available(l.accounts[sponsor]) >= 2 * BASE_RESERVE)
            && (r.Some? ==>
                  r.value == s.(ledger := l.(accounts :=
                    l.accounts[sponsor := l.accounts[sponsor].(sponsoring := l.accounts[sponsor].sponsoring + 2)]
                              [user := AccountEntry(0, 0, 2, 0)])))
  {
    var e := l.accounts[sponsor];
    assert Available(e) >= 2 * BASE_RESERVE ==> Available(e) >= 0;
    assert e.(balance := e.balance - 0) == e;
    assert l.accounts[sponsor := e] == l.accounts;
  }

  lemma TrustInWindow(l: Ledger, sponsor: string, user: string, asset: AssetId, limit: Option<int>)
    requires limit != Some(0)
    requires sponsor != user && sponsor in l.accounts && user in l.accounts
    requires ExecTrust(Exec(l, map[user := sponsor]), user, Line(asset), limit).Some?
    ensures asset in l.assets
    ensures ExecTrust(Exec(l, map[user := sponsor]), user, Line(asset), limit)
            == Some(Exec(Onboarded(l, sponsor, user, asset, limit.GetOr(I64_MAX)), map[user := sponsor]))
    ensures HoldsLine(l, asset, user) || Available(l.accounts[sponsor]) >= BASE_RESERVE
  {
    var l' := Onboarded(l, sponsor, user, asset, limit.GetOr(I64_MAX));
    if HoldsLine(l, asset, user) {
      assert l'.accounts == l.accounts;
    }
  }

  /** Creating the account first and the line after adds up to the closed form. */
  lemma CreateThenTrust(l: Ledger, sponsor: string, user: string, asset: AssetId, limit: int)
    requires sponsor != user && sponsor in l.accounts && user !in l.accounts && asset in l.assets
    ensures var l1 := l.(accounts :=
                    l.accounts[sponsor := l.accounts[sponsor].(sponsoring := l.accounts[sponsor].sponsoring + 2)]
                              [user := AccountEntry(0, 0, 2, 0)]);
            Onboarded(l1, sponsor, user, asset, limit) == Onboarded(l, sponsor, user, asset, limit)
  {
    var l1 := l.(accounts :=
                    l.accounts[sponsor := l.accounts[sponsor].(sponsoring := l.accounts[sponsor].sponsoring + 2)]
                              [user := AccountEntry(0, 0, 2, 0)]);
    assert Onboarded(l1, sponsor, user, asset, limit).accounts == Onboarded(l, sponsor, user, asset, limit).accounts;
  }

  /** The limit an onboarding sandwich gives the line. */
  function LimitOf(ops: seq<Op>): int {
    if |ops| >= 2 && ops[|ops| - 2].ChangeTrust? then ops[|ops| - 2].limit.GetOr(I64_MAX) else I64_MAX
  }

  /** Begin opens the user's window on the sponsor, End closes it. */
  lemma SandwichEnds(l: Ledger, tx: Tx, sponsor: string, user: string, asset: AssetId)
    requires SafeToSponsor(tx, sponsor, user, asset) && sponsor != user
    requires ExecOps(Exec(l, map[]), tx.source, tx.ops).Some?
    ensures sponsor in l.accounts
    ensures ExecOps(Exec(l, map[]), tx.source, tx.ops[..1]) == Some(Exec(l, map[user := sponsor]))
    ensures var s := ExecOps(Exec(l, map[]), tx.source, tx.ops[..|tx.ops| - 1]);
            s.Some? && ExecOps(Exec(l, map[]), tx.source, tx.ops) == Some(s.value.(open := s.value.open - {user}))
  {
    var n := |tx.ops|;
    LastOp(Exec(l, map[]), tx.source, tx.ops, 0);
    LastOp(Exec(l, map[]), tx.source, tx.ops, n - 1);
    assert tx.ops[..0] == [] && tx.ops[..n] == tx.ops;
    assert map[][user := sponsor] == map[user := sponsor];
  }

  lemma SandwichExecutes(l: Ledger, tx: Tx, sponsor: string, user: string, asset: AssetId)
    requires SafeToSponsor(tx, sponsor, user, asset) && sponsor != user
    requires ExecOps(Exec(l, map[]), tx.source, tx.ops).Some?
    ensures sponsor in l.accounts && asset in l.assets
    ensures ExecOps(Exec(l, map[]), tx.source, tx.ops)
            == Some(Exec(Onboarded(l, sponsor, user, asset, LimitOf(tx.ops)), map[]))
  {
    hide ReservesFor;
    hide HoldsLine;
    hide Onboarded;
    hide ExecOps;
    hide ExecTrust;
    hide ExecCreate;
    var s, open, n := Exec(l, map[]), map[user := sponsor], |tx.ops|;
    ExecutedIsOnboarding(s, tx, sponsor, user, asset);
    SandwichEnds(l, tx, sponsor, user, asset);
    MiddleOps(tx, sponsor, user, asset, 1);
    MiddleOps(tx, sponsor, user, asset, n - 2);
    hide SafeToSponsor;
    LastOp(s, tx.source, tx.ops, 1);
    LastOp(s, tx.source, tx.ops, n - 2);
    if n == 4 {
      CreateInWindow(l, sponsor, user);
      var l1 := ExecOps(s, tx.source, tx.ops[..2]).value.ledger;
      TrustInWindow(l1, sponsor, user, asset, tx.ops[2].limit);
      CreateThenTrust(l, sponsor, user, asset, LimitOf(tx.ops));
    } else {
      TrustInWindow(l, sponsor, user, asset, tx.ops[1].limit);
    }
    assert open - {user} == map[];
  }

  /**
   The resource bound: any accepted envelope that succeeds takes at most three base reserves from the
   sponsor and, when the sponsor is the source, the fee; it opens the holder's line and touches nobody else.
   */
  lemma SponsorshipIsBounded(l: Ledger, tx: Tx, sponsor: string, user: string, asset: AssetId)
    requires SafeToSponsor(tx, sponsor, user, asset) && sponsor != user
    requires ExecTx(l, tx).Some?
    ensures OnboardingShape(tx.ops)
    ensures sponsor in l.accounts && asset in l.assets
    ensures ExecTx(l, tx).value.accounts.Keys == l.accounts.Keys + {user}
    ensures var l' := ExecTx(l, tx).value;
            var e, e' := l.accounts[sponsor], l'.accounts[sponsor];
            && e' == e.(balance := e.balance - (if tx.source == sponsor then tx.fee else 0),
                        sponsoring := e.sponsoring + ReservesFor(l, asset, user))
            && ReservesFor(l, asset, user) <= 3
            && HoldsLine(l', asset, user)
            && (forall k :: k in l.accounts && k != sponsor && k != user ==> l'.accounts[k] == l.accounts[k])
            && l'.assets == l.assets[asset := Opened(l.assets[asset], user, Some(sponsor), LimitOf(tx.ops))]
            && l'.wasm == l.wasm
            && l'.accounts[user].balance
               == UserEntry(l, user).balance - (if tx.source == user then tx.fee else 0)
            && MinBalance(l'.accounts[user]) == MinBalance(UserEntry(l, user))
  {
    var l1 := PayFee(l, tx.source, tx.fee).value;
    ExecutedIsOnboarding(Exec(l1, map[]), tx, sponsor, user, asset);
    SandwichExecutes(l1, tx, sponsor, user, asset);
    assert l1.assets == l.assets && l1.accounts.Keys == l.accounts.Keys;
    assert ReservesFor(l1, asset, user) == ReservesFor(l, asset, user);
  }

  lemma NextOp(s: Exec, txSource: string, ops: seq<Op>, j: nat)
    requires j < |ops| && ExecOps(s, txSource, ops[..j]).Some?
    ensures ExecOps(s, txSource, ops[..j + 1]) == ExecOp(ExecOps(s, txSource, ops[..j]).value, txSource, ops[j])
  {
    assert ops[..j + 1][..j] == ops[..j];
  }

  lemma TrustSucceeds(l: Ledger, sponsor: string, user: string, asset: AssetId)
    requires sponsor != user && sponsor in l.accounts && user in l.accounts
    requires asset.Credit? && asset in l.assets && asset.issuer != user
    requires HoldsLine(l, asset, user) || Available(l.accounts[sponsor]) >= BASE_RESERVE
    ensures ExecTrust(Exec(l, map[user := sponsor]), user, Line(asset), None).Some?
  {
  }

  lemma OpenWindow(l: Ledger, sponsor: string, user: string, asset: AssetId, role: Role)
    requires sponsor != user && sponsor in l.accounts && (role.AsUser? ==> user in l.accounts)
    ensures var tx := SponsoredTx(sponsor, user, asset, user !in l.accounts, role);
            ExecOps(Exec(l, map[]), tx.source, tx.ops[..1]) == Some(Exec(l, map[user := sponsor]))
  {
    var tx := SponsoredTx(sponsor, user, asset, user !in l.accounts, role);
    assert tx.ops[..0] == [];
    NextOp(Exec(l, map[]), tx.source, tx.ops, 0);
    assert map[][user := sponsor] == map[user := sponsor];
  }

  /** The account created first, if it is missing: what the line's operation then finds. */
  lemma CreateIfMissing(l: Ledger, sponsor: string, user: string, asset: AssetId, role: Role)
    requires sponsor != user && sponsor in l.accounts && (role.AsUser? ==> user in l.accounts)
    requires Available(l.accounts[sponsor]) >= ReservesFor(l, asset, user) * BASE_RESERVE
    ensures var tx := SponsoredTx(sponsor, user, asset, user !in l.accounts, role);
            var s := ExecOps(Exec(l, map[]), tx.source, tx.ops[..|tx.ops| - 2]);
            && s.Some? && s.value.open == map[user := sponsor] && s.value.ledger.assets == l.assets
            && sponsor in s.value.ledger.accounts && user in s.value.ledger.accounts
            && (HoldsLine(l, asset, user) || Available(s.value.ledger.accounts[sponsor]) >= BASE_RESERVE)
  {
    var create := user !in l.accounts;
    var tx := SponsoredTx(sponsor, user, asset, create, role);
    OpenWindow(l, sponsor, user, asset, role);
    if create {
      NextOp(Exec(l, map[]), tx.source, tx.ops, 1);
      CreateInWindow(l, sponsor, user);
    }
  }

  lemma BuiltTail(sponsor: string, user: string, asset: AssetId, create: bool, role: Role)
    ensures var tx := SponsoredTx(sponsor, user, asset, create, role);
            var n := |tx.ops|;
            && n >= 3
            && tx.ops[n - 2] == ChangeTrust(tx.ops[n - 2].source, Line(asset), None)
            && SourceOf(tx.ops[n - 2], tx) == user
            && tx.ops[n - 1].EndSponsoring? && SourceOf(tx.ops[n - 1], tx) == user
  {
  }

  /** The user's line and the end of the window, from the state the account's operation left. */
  lemma TailExecutes(s: Exec, txSource: string, trust: Op, end: Op, sponsor: string, user: string, asset: AssetId)
    requires s.open == map[user := sponsor] && sponsor != user
    requires sponsor in s.ledger.accounts && user in s.ledger.accounts
    requires asset.Credit? && asset in s.ledger.assets && asset.issuer != user
    requires HoldsLine(s.ledger, asset, user) || Available(s.ledger.accounts[sponsor]) >= BASE_RESERVE
    requires trust == ChangeTrust(trust.source, Line(asset), None) && trust.source.GetOr(txSource) == user
    requires end.EndSponsoring? && end.source.GetOr(txSource) == user
    ensures ExecOp(s, txSource, trust).Some?
    ensures ExecOp(ExecOp(s, txSource, trust).value, txSource, end).Some?
    ensures ExecOp(ExecOp(s, txSource, trust).value, txSource, end).value.open == map[]
  {
    TrustSucceeds(s.ledger, sponsor, user, asset);
    TrustInWindow(s.ledger, sponsor, user, asset, None);
    hide ExecTrust;
    assert ExecOp(s, txSource, trust) == ExecTrust(s, user, Line(asset), None);
    assert map[user := sponsor] - {user} == map[];
  }

  lemma BuiltOpsExecute(l: Ledger, sponsor: string, user: string, asset: AssetId, role: Role)
    requires sponsor != user && sponsor in l.accounts && (role.AsUser? ==> user in l.accounts)
    requires asset.Credit? && asset in l.assets && asset.issuer != user
    requires Available(l.accounts[sponsor]) >= ReservesFor(l, asset, user) * BASE_RESERVE
    ensures var tx := SponsoredTx(sponsor, user, asset, user !in l.accounts, role);
            var s := ExecOps(Exec(l, map[]), tx.source, tx.ops);
            s.Some? && s.value.open == map[]
  {
    hide ReservesFor;
    hide ExecOps;
    hide ExecOp;
    hide SponsoredTx;
    var tx := SponsoredTx(sponsor, user, asset, user !in l.accounts, role);
    var s, n := Exec(l, map[]), |tx.ops|;
    CreateIfMissing(l, sponsor, user, asset, role);
    BuiltTail(sponsor, user, asset, user !in l.accounts, role);
    var before := ExecOps(s, tx.source, tx.ops[..n - 2]).value;
    TailExecutes(before, tx.source, tx.ops[n - 2], tx.ops[n - 1], sponsor, user, asset);
    NextOp(s, tx.source, tx.ops, n - 2);
    NextOp(s, tx.source, tx.ops, n - 1);
    assert tx.ops[..n] == tx.ops;
  }

  /**
   A built envelope, whoever sources it, succeeds whenever its source can pay the fee and the sponsor can
   lock the reserves.
   */
  lemma BuiltExecutes(l: Ledger, sponsor: string, user: string, asset: AssetId, role: Role, signatures: seq<int>)
    requires sponsor != user && sponsor in l.accounts && (role.AsUser? ==> user in l.accounts)
    requires asset.Credit? && asset in l.assets && asset.issuer != user
    requires var tx := SponsoredTx(sponsor, user, asset, user !in l.accounts, role);
             var locked := ReservesFor(l, asset, user) * BASE_RESERVE;
             && Available(l.accounts[sponsor]) >= locked + (if role.AsSponsor? then tx.fee else 0)
             && (role.AsUser? ==> Available(l.accounts[user]) >= tx.fee)
    ensures ExecTx(l, SponsoredTx(sponsor, user, asset, user !in l.accounts, role).(signatures := signatures)).Some?
  {
    var tx := SponsoredTx(sponsor, user, asset, user !in l.accounts, role);
    var l0 := PayFee(l, tx.source, tx.fee).value;
    assert ReservesFor(l0, asset, user) == ReservesFor(l, asset, user);
    hide ExecOps;
    hide ReservesFor;
    BuiltOpsExecute(l0, sponsor, user, asset, role);
  }
}
