/**
 A small Stellar ledger: classic accounts with their reserves, and assets whose Stellar Asset
 Contract (SAC) keeps one position per holder. A position of a classic account is its trustline; a
 position of a contract is the SAC's own balance entry, which exists only once it was written.
 Everything here is the platform the contracts run on, so every operation is a total function and
 a refusal is None.
 */
module StellarLedger {
  import opened Wrappers

  datatype AssetId = Native | Credit(code: string, issuer: string)

  /** The SAC of an asset has an address derived from that asset alone. */
  datatype Address = Account(key: string) | Contract(id: string) | SacOf(asset: AssetId)

  datatype Executable = StellarAsset | Wasm | AccountExecutable

  const BASE_RESERVE: int := 5_000_000
  const I64_MAX: int := 0x7fff_ffff_ffff_ffff
  const I128_MAX: int := 0x7fff_ffff_ffff_ffff_ffff_ffff_ffff_ffff

  /** Balance in stroops; the counters are those of CAP-33. */
  datatype AccountEntry = AccountEntry(balance: int, subEntries: nat, sponsored: nat, sponsoring: nat)

  /** Limit and reserve sponsor are the trustline's; a contract's entry is bounded by its integer type alone. */
  datatype Position = Position(authorized: bool, balance: int, limit: int, clawback: bool, sponsor: Option<string>)

  /** One `set_authorized` event as the SAC itself publishes it, naming the admin that called. */
  datatype FlagWrite = FlagWrite(caller: Address, account: Address, on: bool)

  datatype Asset = Asset(
    deployed: bool,
    admin: Address,
    authRequired: bool,
    authRevocable: bool,
    authClawback: bool,
    positions: map<Address, Position>,
    writes: seq<FlagWrite>)

  datatype Ledger = Ledger(
    accounts: map<string, AccountEntry>,
    assets: map<AssetId, Asset>,
    wasm: set<Address>)

  function MinBalance(e: AccountEntry): int {
    (2 + e.subEntries + e.sponsoring - e.sponsored) * BASE_RESERVE
  }

  /** What an account can spend or lock into a further reserve. */
  function Available(e: AccountEntry): int {
    e.balance - MinBalance(e)
  }

  function ExecutableOf(l: Ledger, a: Address): Option<Executable> {
    match a
    case Account(k) => if k in l.accounts then Some(AccountExecutable) else None
    case Contract(_) => if a in l.wasm then Some(Wasm) else None
    case SacOf(id) => if id in l.assets && l.assets[id].deployed then Some(StellarAsset) else None
  }

  predicate IsSac(l: Ledger, sac: Address) {
    ExecutableOf(l, sac) == Some(StellarAsset)
  }

  function AssetOf(l: Ledger, sac: Address): Asset
    requires IsSac(l, sac)
  {
    l.assets[sac.asset]
  }

  function WithAsset(l: Ledger, sac: Address, asset: Asset): Ledger
    requires sac.SacOf?
  {
    l.(assets := l.assets[sac.asset := asset])
  }

  predicate IsIssuer(sac: Address, a: Address) {
    sac.SacOf? && sac.asset.Credit? && a == Account(sac.asset.issuer)
  }

  /** The SAC's `authorized` view. None is a trap: an account without a trustline. */
  function AuthorizedView(l: Ledger, sac: Address, a: Address): Option<bool> {
    if !IsSac(l, sac) then None
    else if IsIssuer(sac, a) then Some(true)
    else if a in AssetOf(l, sac).positions then Some(AssetOf(l, sac).positions[a].authorized)
    else if a.Account? then None
    else Some(!AssetOf(l, sac).authRequired)
  }

  predicate HasLine(l: Ledger, sac: Address, a: Address) {
    IsSac(l, sac) && a in AssetOf(l, sac).positions
  }

  /** The SAC accepts `set_authorized` from its admin only, for a holder that can carry the flag. */
  predicate Settable(asset: Asset, sac: Address, caller: Address, a: Address, on: bool) {
    && caller == asset.admin
    && !IsIssuer(sac, a)
    && (a.Account? ==> a in asset.positions)
    && (!on ==> asset.authRevocable)
  }

  function PositionOr(asset: Asset, a: Address): Position {
    if a in asset.positions then asset.positions[a] else Position(true, 0, I128_MAX, asset.authClawback, None)
  }

  function SetFlag(asset: Asset, caller: Address, a: Address, on: bool): Asset {
    asset.(positions := asset.positions[a := PositionOr(asset, a).(authorized := on)],
           writes := asset.writes + [FlagWrite(caller, a, on)])
  }

  function TrySetAuthorized(l: Ledger, sac: Address, caller: Address, a: Address, on: bool): Option<Ledger> {
    if IsSac(l, sac) && Settable(AssetOf(l, sac), sac, caller, a, on)
    then Some(WithAsset(l, sac, SetFlag(AssetOf(l, sac), caller, a, on)))
    else None
  }

  /** A freshly opened trustline: authorized exactly when the issuer does not require authorization. */
  function NewLine(asset: Asset): Position {
    Position(!asset.authRequired, 0, I64_MAX, asset.authClawback, None)
  }

  /**
   CAP-73 `trust`: a no-op for contracts and existing lines, otherwise it opens the line against
   the holder's own reserve.
   */
  function TryTrust(l: Ledger, sac: Address, a: Address): Option<Ledger> {
    if !IsSac(l, sac) || sac.asset.Native? || IsIssuer(sac, a) then None
    else if !a.Account? || a in AssetOf(l, sac).positions then Some(l)
    else if a.key !in l.accounts || Available(l.accounts[a.key]) < BASE_RESERVE then None
    else
      var e := l.accounts[a.key];
      var asset := AssetOf(l, sac);
      Some(WithAsset(l.(accounts := l.accounts[a.key := e.(subEntries := e.subEntries + 1)]), sac,
                     asset.(positions := asset.positions[a := NewLine(asset)])))
  }

  /** What a position can hold. */
  function Ceiling(p: Position, a: Address): int {
    if a.Account? then p.limit else I128_MAX
  }

  function TryMint(l: Ledger, sac: Address, caller: Address, a: Address, amount: int): Option<Ledger> {
    if !IsSac(l, sac) || caller != AssetOf(l, sac).admin then None
    else if IsIssuer(sac, a) then Some(l)
    else if AuthorizedView(l, sac, a) != Some(true) then None
    else
      var asset := AssetOf(l, sac);
      var p := PositionOr(asset, a);
      if p.balance + amount > Ceiling(p, a) then None
      else Some(WithAsset(l, sac, asset.(positions := asset.positions[a := p.(balance := p.balance + amount)])))
  }

  function TryClawback(l: Ledger, sac: Address, caller: Address, a: Address, amount: int): Option<Ledger> {
    if !IsSac(l, sac) || caller != AssetOf(l, sac).admin || a !in AssetOf(l, sac).positions then None
    else
      var asset := AssetOf(l, sac);
      var p := asset.positions[a];
      if !p.clawback || p.balance < amount then None
      else Some(WithAsset(l, sac, asset.(positions := asset.positions[a := p.(balance := p.balance - amount)])))
  }

  // ---- when the SAC answers ---------------------------------------------------------------

  /** `authorized`: the issuer always, a holder by its position, a contract without one where nothing is required. */
  lemma ViewExactly(l: Ledger, sac: Address, a: Address)
    requires IsSac(l, sac)
    ensures var asset := AssetOf(l, sac);
            && (AuthorizedView(l, sac, a) == Some(true) <==>
                  || IsIssuer(sac, a) || (HasLine(l, sac, a) && asset.positions[a].authorized)
                  || (!HasLine(l, sac, a) && !a.Account? && !asset.authRequired))
            && (AuthorizedView(l, sac, a).None? <==> a.Account? && !HasLine(l, sac, a) && !IsIssuer(sac, a))
  {
  }

  /** `set_authorized`: its admin, for a holder that can carry the flag, taking it away only where that is allowed. */
  lemma SetAuthorizedExactly(l: Ledger, sac: Address, caller: Address, a: Address, on: bool)
    ensures var r := TrySetAuthorized(l, sac, caller, a, on);
            && (r.Some? <==>
                  && IsSac(l, sac) && caller == AssetOf(l, sac).admin && !IsIssuer(sac, a)
                  && (HasLine(l, sac, a) || !a.Account?) && (on || AssetOf(l, sac).authRevocable))
            && (r.Some? ==>
                  && AuthorizedView(r.value, sac, a) == Some(on)
                  && (forall b :: b != a ==> AuthorizedView(r.value, sac, b) == AuthorizedView(l, sac, b))
                  && r.value.accounts == l.accounts && r.value.wasm == l.wasm
                  && AssetOf(r.value, sac).writes == AssetOf(l, sac).writes + [FlagWrite(caller, a, on)])
  {
  }

  /** CAP-73 `trust`: an account opens a line when it can lock one more reserve; nobody else needs one. */
  lemma TrustExactly(l: Ledger, sac: Address, a: Address)
    ensures var r := TryTrust(l, sac, a);
            && (r.Some? <==>
                  && IsSac(l, sac) && sac.asset.Credit? && !IsIssuer(sac, a)
                  && (!a.Account? || HasLine(l, sac, a)
                      || (a.key in l.accounts
                          && var e := l.accounts[a.key];
                             e.balance >= (3 + e.subEntries + e.sponsoring - e.sponsored) * 5_000_000)))
            && (r.Some? && (!a.Account? || HasLine(l, sac, a)) ==> r.value == l)
            && (r.Some? && a.Account? && !HasLine(l, sac, a) ==>
                  && HasLine(r.value, sac, a)
                  && AuthorizedView(r.value, sac, a) == Some(!AssetOf(l, sac).authRequired)
                  && r.value.accounts[a.key].subEntries == l.accounts[a.key].subEntries + 1)
  {
  }

  /** Minting and clawing back: the admin's, within what the position holds or can hold. */
  lemma SupplyExactly(l: Ledger, sac: Address, caller: Address, a: Address, amount: int)
    requires IsSac(l, sac)
    ensures var asset := AssetOf(l, sac);
            var p := PositionOr(asset, a);
            && (TryMint(l, sac, caller, a, amount).Some? <==>
                  && caller == asset.admin
                  && (IsIssuer(sac, a)
                      || (AuthorizedView(l, sac, a) == Some(true)
                          && p.balance + amount <= if a.Account? then p.limit else I128_MAX)))
            && (TryClawback(l, sac, caller, a, amount).Some? <==>
                  caller == asset.admin && HasLine(l, sac, a) && p.clawback && amount <= p.balance)
  {
  }

  /** The host environment a contract runs in: the ledger it reads and writes. */
  class Host {
    var ledger: Ledger

    constructor (ledger: Ledger)
      ensures this.ledger == ledger
    {
      this.ledger := ledger;
    }

    method TrySet(sac: Address, caller: Address, a: Address, on: bool) returns (ok: bool)
      modifies this
      ensures ok <==> TrySetAuthorized(old(ledger), sac, caller, a, on).Some?
      ensures ledger == if ok then TrySetAuthorized(old(ledger), sac, caller, a, on).value else old(ledger)
    {
      var next := TrySetAuthorized(ledger, sac, caller, a, on);
      ok := next.Some?;
      if ok {
        ledger := next.value;
      }
    }
  }
}
