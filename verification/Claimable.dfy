/**
 Claimable-balance delivery: the claim predicates a delivery is created with, what Horizon's JSON form of
 a predicate evaluates to in the SDK against what the ledger decides, the listing built on that
 evaluation, and the printing of amounts. Ledger time is in seconds, the SDK's clock in milliseconds.
 */
module Claimable {
  import opened Wrappers

  // ---- predicates on the ledger -----------------------------------------------------------

  datatype Predicate =
    | Unconditional
    | BeforeAbs(time: int)
    | BeforeRel(seconds: int)
    | Not(inner: Predicate)
    | And(left: Predicate, right: Predicate)
    | Or(left: Predicate, right: Predicate)

  /** A predicate at ledger time t, given which relative windows are still open. */
  predicate Holds(p: Predicate, t: int, open: int -> bool) {
    match p
    case Unconditional => true
    case BeforeAbs(time) => t < time
    case BeforeRel(d) => open(d)
    case Not(q) => !Holds(q, t, open)
    case And(a, b) => Holds(a, t, open) && Holds(b, t, open)
    case Or(a, b) => Holds(a, t, open) || Holds(b, t, open)
  }

  /** CAP-23: a relative window runs from the close of the ledger that created the balance. */
  predicate LedgerHolds(p: Predicate, created: int, t: int) {
    Holds(p, t, d => t < created + d)
  }

  /** Creation fixes every relative window as an absolute one. */
  function Resolve(p: Predicate, created: int): Predicate {
    match p
    case BeforeRel(d) => BeforeAbs(created + d)
    case Not(q) => Not(Resolve(q, created))
    case And(a, b) => And(Resolve(a, created), Resolve(b, created))
    case Or(a, b) => Or(Resolve(a, created), Resolve(b, created))
    case _ => p
  }

  predicate HasRel(p: Predicate) {
    match p
    case BeforeRel(_) => true
    case Not(q) => HasRel(q)
    case And(a, b) => HasRel(a) || HasRel(b)
    case Or(a, b) => HasRel(a) || HasRel(b)
    case _ => false
  }

  /** Every relative window sits under an even (or, for `even` false, an odd) number of negations. */
  predicate RelsUnder(p: Predicate, even: bool) {
    match p
    case BeforeRel(_) => even
    case Not(q) => RelsUnder(q, !even)
    case And(a, b) => RelsUnder(a, even) && RelsUnder(b, even)
    case Or(a, b) => RelsUnder(a, even) && RelsUnder(b, even)
    case _ => true
  }

  function RelsOf(p: Predicate): set<int> {
    match p
    case BeforeRel(d) => {d}
    case Not(q) => RelsOf(q)
    case And(a, b) => RelsOf(a) + RelsOf(b)
    case Or(a, b) => RelsOf(a) + RelsOf(b)
    case _ => {}
  }

  function TimesOf(p: Predicate): set<int> {
    match p
    case BeforeAbs(t) => {t}
    case Not(q) => TimesOf(q)
    case And(a, b) => TimesOf(a) + TimesOf(b)
    case Or(a, b) => TimesOf(a) + TimesOf(b)
    case _ => {}
  }

  // ---- predicates as Horizon's JSON -------------------------------------------------------

  /** Optional fields; an absent `unconditional` is false. */
  datatype HorizonPredicate = HorizonPredicate(
    unconditional: bool, absBefore: Option<string>, relBefore: Option<string>,
    not_: Option<HorizonPredicate>, and_: Children, or_: Children)

  datatype Children = Absent | Listed(items: seq<HorizonPredicate>)

  /** How Horizon writes an instant, and what JavaScript's Date reads, in milliseconds, if anything. */
  datatype Dates = Dates(show: int -> string, read: string -> Option<int>)

  predicate ReadsBack(dates: Dates, p: Predicate) {
    forall t :: t in TimesOf(p) ==> dates.show(t) != "" && dates.read(dates.show(t)) == Some(1000 * t)
  }

  predicate Given(s: Option<string>) {
    s.Some? && s.value != ""
  }

  /** The evaluation at `now`: the fields are tried in this order, and a missing predicate holds. */
  predicate PredicateHolds(dates: Dates, p: Option<HorizonPredicate>, now: int) {
    p.None? || RecordHolds(dates, p.value, now)
  }

  predicate RecordHolds(dates: Dates, p: HorizonPredicate, now: int) {
    if p.unconditional then true
    else if p.not_.Some? then !RecordHolds(dates, p.not_.value, now)
    else if p.and_.Listed? then forall i :: 0 <= i < |p.and_.items| ==> RecordHolds(dates, p.and_.items[i], now)
    else if p.or_.Listed? then exists i :: 0 <= i < |p.or_.items| && RecordHolds(dates, p.or_.items[i], now)
    else if Given(p.absBefore) then
      var at := dates.read(p.absBefore.value);
      at.Some? && now < at.value
    else true
  }

  /** The reported opening of a reclaim lock: the absolute time directly under the outermost negation. */
  function UnlockTime(p: Option<HorizonPredicate>): Option<string> {
    if p.Some? && p.value.not_.Some? then p.value.not_.value.absBefore else None
  }

  const BLANK := HorizonPredicate(false, None, None, None, Absent, Absent)

  function Render(dates: Dates, p: Predicate): HorizonPredicate {
    match p
    case Unconditional => BLANK.(unconditional := true)
    case BeforeAbs(t) => BLANK.(absBefore := Some(dates.show(t)))
    case BeforeRel(d) => BLANK.(relBefore := Some(dates.show(d)))
    case Not(q) => BLANK.(not_ := Some(Render(dates, q)))
    case And(a, b) => BLANK.(and_ := Listed([Render(dates, a), Render(dates, b)]))
    case Or(a, b) => BLANK.(or_ := Listed([Render(dates, a), Render(dates, b)]))
  }

  /** Any record, also one the ledger has no predicate for: the first field that is set decides, and none holds. */
  lemma RecordsExactly(dates: Dates, p: HorizonPredicate, now: int)
    ensures PredicateHolds(dates, None, now)
    ensures var holds := PredicateHolds(dates, Some(p), now);
            && (p.unconditional ==> holds)
            && (!p.unconditional && p.not_.Some? ==> (holds <==> !PredicateHolds(dates, p.not_, now)))
            && (!p.unconditional && p.not_.None? && p.and_.Listed? ==>
                  (holds <==> forall i :: 0 <= i < |p.and_.items| ==>
                                PredicateHolds(dates, Some(p.and_.items[i]), now)))
            && (!p.unconditional && p.not_.None? && p.and_.Absent? && p.or_.Listed? ==>
                  (holds <==> exists i :: 0 <= i < |p.or_.items| && PredicateHolds(dates, Some(p.or_.items[i]), now)))
            && (!p.unconditional && p.not_.None? && p.and_.Absent? && p.or_.Absent? ==>
                  (holds <==> p.absBefore.Some? && p.absBefore.value != "" ==>
                                dates.read(p.absBefore.value).Some? && now < dates.read(p.absBefore.value).value))
  {
  }

  // ---- evaluation against the ledger ------------------------------------------------------

  /** On every predicate the SDK computes the ledger's rule with each relative window taken to be open. */
  lemma {:induction false} EvaluatesOptimistically(dates: Dates, p: Predicate, now: int)
    requires ReadsBack(dates, p)
    ensures PredicateHolds(dates, Some(Render(dates, p)), now) <==> Holds(p, now / 1000, _ => true)
  {
    match p {
      case Not(q) => EvaluatesOptimistically(dates, q, now);
      case And(a, b) =>
        EvaluatesOptimistically(dates, a, now);
        EvaluatesOptimistically(dates, b, now);
        var both := Render(dates, p).and_.items;
        assert both[0] == Render(dates, a) && both[1] == Render(dates, b);
      case Or(a, b) =>
        EvaluatesOptimistically(dates, a, now);
        EvaluatesOptimistically(dates, b, now);
        var both := Render(dates, p).or_.items;
        assert both[0] == Render(dates, a) && both[1] == Render(dates, b);
      case BeforeAbs(t) => assert t in TimesOf(p);
      case _ =>
    }
  }

  /** Two readings of the relative windows agree on a predicate whose own windows they agree on. */
  lemma {:induction false} OnlyOwnWindows(p: Predicate, t: int, open: int -> bool, open': int -> bool)
    requires forall d :: d in RelsOf(p) ==> open(d) == open'(d)
    ensures Holds(p, t, open) <==> Holds(p, t, open')
  {
    match p {
      case Not(q) => OnlyOwnWindows(q, t, open, open');
      case And(a, b) => OnlyOwnWindows(a, t, open, open'); OnlyOwnWindows(b, t, open, open');
      case Or(a, b) => OnlyOwnWindows(a, t, open, open'); OnlyOwnWindows(b, t, open, open');
      case BeforeRel(d) => assert d in RelsOf(p);
      case _ =>
    }
  }

  lemma {:induction false} NoRels(p: Predicate)
    requires !HasRel(p)
    ensures RelsOf(p) == {}
  {
    match p {
      case Not(q) => NoRels(q);
      case And(a, b) => NoRels(a); NoRels(b);
      case Or(a, b) => NoRels(a); NoRels(b);
      case _ =>
    }
  }

  /** The SDK and the ledger agree when there is no relative window, and while all of them are open. */
  lemma AgreesWithLedger(dates: Dates, p: Predicate, created: int, now: int)
    requires ReadsBack(dates, p)
    requires !HasRel(p) || forall d :: d in RelsOf(p) ==> now / 1000 < created + d
    ensures PredicateHolds(dates, Some(Render(dates, p)), now) <==> LedgerHolds(p, created, now / 1000)
  {
    if !HasRel(p) {
      NoRels(p);
    }
    EvaluatesOptimistically(dates, p, now);
    OnlyOwnWindows(p, now / 1000, _ => true, d => now / 1000 < created + d);
  }

  lemma {:induction false} OpenWindowsRaise(p: Predicate, even: bool, t: int, open: int -> bool)
    requires RelsUnder(p, even)
    ensures even && Holds(p, t, open) ==> Holds(p, t, _ => true)
    ensures !even && Holds(p, t, _ => true) ==> Holds(p, t, open)
  {
    match p {
      case Not(q) => OpenWindowsRaise(q, !even, t, open);
      case And(a, b) => OpenWindowsRaise(a, even, t, open); OpenWindowsRaise(b, even, t, open);
      case Or(a, b) => OpenWindowsRaise(a, even, t, open); OpenWindowsRaise(b, even, t, open);
      case _ =>
    }
  }

  /**
   With every relative window under an even number of negations nothing claimable is hidden; with every
   one under an odd number nothing unclaimable is offered.
   */
  lemma RelativeWindows(dates: Dates, p: Predicate, even: bool, created: int, now: int)
    requires ReadsBack(dates, p) && RelsUnder(p, even)
    ensures even && LedgerHolds(p, created, now / 1000) ==> PredicateHolds(dates, Some(Render(dates, p)), now)
    ensures !even && PredicateHolds(dates, Some(Render(dates, p)), now) ==> LedgerHolds(p, created, now / 1000)
  {
    EvaluatesOptimistically(dates, p, now);
    OpenWindowsRaise(p, even, now / 1000, d => now / 1000 < created + d);
  }

  function Negated(n: nat, p: Predicate): Predicate {
    if n == 0 then p else Not(Negated(n - 1, p))
  }

  lemma {:induction false} NegationsFlip(n: nat, p: Predicate, t: int, open: int -> bool)
    ensures Holds(Negated(n, p), t, open) <==> (Holds(p, t, open) <==> n % 2 == 0)
    ensures TimesOf(Negated(n, p)) == TimesOf(p)
  {
    if n > 0 {
      NegationsFlip(n - 1, p, t, open);
    }
  }

  /** A bare relative window hides a claimable balance exactly when it is negated and has passed. */
  lemma BareWindowHides(dates: Dates, n: nat, seconds: int, created: int, now: int)
    ensures var p := Negated(n, BeforeRel(seconds));
            LedgerHolds(p, created, now / 1000) && !PredicateHolds(dates, Some(Render(dates, p)), now)
            <==> n % 2 == 1 && now / 1000 >= created + seconds
  {
    var p := Negated(n, BeforeRel(seconds));
    NegationsFlip(n, BeforeRel(seconds), now / 1000, _ => true);
    NegationsFlip(n, BeforeRel(seconds), now / 1000, d => now / 1000 < created + d);
    assert TimesOf(p) == {};
    EvaluatesOptimistically(dates, p, now);
  }

  lemma {:induction false} ResolutionKeeps(p: Predicate, created: int, t: int)
    ensures !HasRel(Resolve(p, created))
    ensures LedgerHolds(Resolve(p, created), created, t) <==> LedgerHolds(p, created, t)
  {
    match p {
      case Not(q) => ResolutionKeeps(q, created, t);
      case And(a, b) => ResolutionKeeps(a, created, t); ResolutionKeeps(b, created, t);
      case Or(a, b) => ResolutionKeeps(a, created, t); ResolutionKeeps(b, created, t);
      case _ =>
    }
  }

  /** What Horizon serves resolved, the SDK evaluates exactly as the ledger decides. */
  lemma ResolvedIsExact(dates: Dates, p: Predicate, created: int, now: int)
    requires ReadsBack(dates, Resolve(p, created))
    ensures PredicateHolds(dates, Some(Render(dates, Resolve(p, created))), now)
            <==> LedgerHolds(p, created, now / 1000)
  {
    ResolutionKeeps(p, created, now / 1000);
    AgreesWithLedger(dates, Resolve(p, created), created, now);
  }

  // ---- the listing ------------------------------------------------------------------------

  datatype Claimant = Claimant(destination: string, rule: Predicate)

  datatype Balance = Balance(id: string, asset: string, amount: string, claimants: seq<Claimant>, created: int)

  datatype ClaimRow = ClaimRow(destination: string, rule: Option<HorizonPredicate>)

  datatype Record = Record(id: string, asset: string, amount: string, claimants: seq<ClaimRow>)

  datatype Entry = Entry(
    balanceId: string, asset: string, amount: string, claimants: seq<string>,
    claimableNow: bool, claimableAfter: Option<string>)

  function RuleOf(rows: seq<ClaimRow>, who: string): Option<HorizonPredicate> {
    if rows == [] then None
    else if rows[0].destination == who then rows[0].rule
    else RuleOf(rows[1..], who)
  }

  function EntryOf(dates: Dates, r: Record, who: string, now: int): Entry {
    var rule := RuleOf(r.claimants, who);
    var after := UnlockTime(rule);
    Entry(r.id, r.asset, r.amount, seq(|r.claimants|, i requires 0 <= i < |r.claimants| => r.claimants[i].destination),
          PredicateHolds(dates, rule, now), if Given(after) then after else None)
  }

  function EntriesOf(dates: Dates, records: seq<Record>, who: string, now: int): seq<Entry> {
    seq(|records|, i requires 0 <= i < |records| => EntryOf(dates, records[i], who, now))
  }

  function ClaimableOnly(entries: seq<Entry>): seq<Entry> {
    if entries == [] then []
    else (if entries[0].claimableNow then [entries[0]] else []) + ClaimableOnly(entries[1..])
  }

  function FindClaimable(dates: Dates, records: seq<Record>, who: string, includeUnclaimable: bool, now: int)
    : seq<Entry>
  {
    var entries := EntriesOf(dates, records, who, now);
    if includeUnclaimable then entries else ClaimableOnly(entries)
  }

  function RenderBalance(dates: Dates, b: Balance): Record {
    Record(b.id, b.asset, b.amount,
           seq(|b.claimants|, i requires 0 <= i < |b.claimants| =>
             ClaimRow(b.claimants[i].destination, Some(Render(dates, Resolve(b.claimants[i].rule, b.created))))))
  }

  function RenderAll(dates: Dates, balances: seq<Balance>): seq<Record> {
    seq(|balances|, i requires 0 <= i < |balances| => RenderBalance(dates, balances[i]))
  }

  /** What the ledger lets an account claim: it is named, and its own rule holds. */
  predicate MayClaim(b: Balance, who: string, t: int) {
    exists i :: 0 <= i < |b.claimants| && b.claimants[i].destination == who
                && LedgerHolds(b.claimants[i].rule, b.created, t)
  }

  /** The claimants of a balance are distinct accounts, `who` is one, and the instants can be read back. */
  predicate Listable(dates: Dates, b: Balance, who: string) {
    && (forall i, j :: 0 <= i < j < |b.claimants| ==> b.claimants[i].destination != b.claimants[j].destination)
    && (exists i :: 0 <= i < |b.claimants| && b.claimants[i].destination == who)
    && forall i :: 0 <= i < |b.claimants| ==> ReadsBack(dates, Resolve(b.claimants[i].rule, b.created))
  }

  function MayClaimIds(balances: seq<Balance>, who: string, t: int): seq<string> {
    if balances == [] then []
    else (if MayClaim(balances[0], who, t) then [balances[0].id] else []) + MayClaimIds(balances[1..], who, t)
  }

  function Ids(entries: seq<Entry>): seq<string> {
    seq(|entries|, i requires 0 <= i < |entries| => entries[i].balanceId)
  }

  lemma {:induction false} RuleFound(rows: seq<ClaimRow>, who: string, k: nat)
    requires k < |rows| && rows[k].destination == who
    requires forall i :: 0 <= i < k ==> rows[i].destination != who
    ensures RuleOf(rows, who) == rows[k].rule
  {
    if k > 0 {
      RuleFound(rows[1..], who, k - 1);
    }
  }

  lemma EntryIsTrue(dates: Dates, b: Balance, who: string, now: int)
    requires Listable(dates, b, who)
    ensures EntryOf(dates, RenderBalance(dates, b), who, now).claimableNow <==> MayClaim(b, who, now / 1000)
  {
    var k :| 0 <= k < |b.claimants| && b.claimants[k].destination == who;
    RuleFound(RenderBalance(dates, b).claimants, who, k);
    ResolvedIsExact(dates, b.claimants[k].rule, b.created, now);
  }

  /** The listing offers exactly the balances the ledger would let the account claim now, in order. */
  lemma {:induction false} ListsExactlyClaimable(dates: Dates, balances: seq<Balance>, who: string, now: int)
    requires forall b :: b in balances ==> Listable(dates, b, who)
    ensures Ids(FindClaimable(dates, RenderAll(dates, balances), who, false, now))
            == MayClaimIds(balances, who, now / 1000)
  {
    if balances != [] {
      var entries := EntriesOf(dates, RenderAll(dates, balances), who, now);
      var rest := EntriesOf(dates, RenderAll(dates, balances[1..]), who, now);
      assert entries[1..] == rest;
      assert balances[0] in balances;
      EntryIsTrue(dates, balances[0], who, now);
      ListsExactlyClaimable(dates, balances[1..], who, now);
      assert entries[0] == EntryOf(dates, RenderBalance(dates, balances[0]), who, now);
      var tail := ClaimableOnly(rest);
      assert Ids([entries[0]] + tail) == [balances[0].id] + Ids(tail);
      assert [] + tail == tail;
      assert [] + MayClaimIds(balances[1..], who, now / 1000) == MayClaimIds(balances[1..], who, now / 1000);
    }
  }

  lemma {:induction false} RuleMissing(rows: seq<ClaimRow>, who: string)
    requires forall i :: 0 <= i < |rows| ==> rows[i].destination != who
    ensures RuleOf(rows, who).None?
  {
    if rows != [] {
      RuleMissing(rows[1..], who);
    }
  }

  /** The full listing has one entry a record, in order, and passes on what the record says. */
  lemma ListsEverything(dates: Dates, records: seq<Record>, who: string, now: int, i: nat)
    requires i < |records|
    ensures |FindClaimable(dates, records, who, true, now)| == |records|
    ensures var e, rec := FindClaimable(dates, records, who, true, now)[i], records[i];
            var rule := RuleOf(rec.claimants, who);
            && e.balanceId == rec.id && e.asset == rec.asset && e.amount == rec.amount
            && |e.claimants| == |rec.claimants|
            && (forall j :: 0 <= j < |e.claimants| ==> e.claimants[j] == rec.claimants[j].destination)
            && (e.claimableNow <==> PredicateHolds(dates, rule, now))
            && (e.claimableAfter.Some? <==>
                  rule.Some? && rule.value.not_.Some? && rule.value.not_.value.absBefore.Some?
                  && rule.value.not_.value.absBefore.value != "")
            && (e.claimableAfter.Some? ==> e.claimableAfter == rule.value.not_.value.absBefore)
  {
    hide PredicateHolds;
    hide RuleOf;
  }

  /** The default listing keeps exactly the claimable entries of the full one, as they are. */
  lemma {:induction false} DefaultKeepsClaimable(entries: seq<Entry>, e: Entry)
    ensures e in ClaimableOnly(entries) <==> e in entries && e.claimableNow
  {
    if entries != [] {
      DefaultKeepsClaimable(entries[1..], e);
      assert e in entries <==> e == entries[0] || e in entries[1..];
    }
  }

  // ---- the delivery -----------------------------------------------------------------------

  datatype Number = NaN | Infinite(negative: bool) | Finite(value: real)

  datatype DeliveryError = NotAnAccount | AmountNotPositive | WindowNotPositive

  predicate Positive(n: Number) {
    (n.Finite? && n.value > 0.0) || n == Infinite(false)
  }

  /** The claimants of a delivery; `isAccount` is the classic-address test and the amount is read as a number. */
  method BuildDelivery(isAccount: string -> bool, sender: string, recipient: string, amount: Number,
                       reclaimAfter: Option<Number>)
    returns (r: Result<seq<Claimant>, DeliveryError>)
    ensures r.Success? <==>
              && isAccount(recipient) && Positive(amount)
              && (reclaimAfter.Some? ==> reclaimAfter.value.Finite? && Positive(reclaimAfter.value))
    ensures r == Failure(NotAnAccount) <==> !isAccount(recipient)
    ensures r == Failure(AmountNotPositive) <==> isAccount(recipient) && !Positive(amount)
    ensures r == Failure(WindowNotPositive) <==>
              && isAccount(recipient) && Positive(amount)
              && reclaimAfter.Some? && !(reclaimAfter.value.Finite? && reclaimAfter.value.value > 0.0)
    ensures r.Success? && (reclaimAfter.None? || sender == recipient) ==>
              r.value == [Claimant(recipient, Unconditional)]
    ensures r.Success? && reclaimAfter.Some? && sender != recipient ==>
              r.value == WithReclaim(sender, recipient, reclaimAfter.value.value)
  {
    if !isAccount(recipient) {
      return Failure(NotAnAccount);
    }
    if !Positive(amount) {
      return Failure(AmountNotPositive);
    }
    var claimants := [Claimant(recipient, Unconditional)];
    if reclaimAfter.Some? {
      if !reclaimAfter.value.Finite? || reclaimAfter.value.value <= 0.0 {
        return Failure(WindowNotPositive);
      }
      if sender != recipient {
        claimants := claimants + [Claimant(sender, Not(BeforeRel(reclaimAfter.value.value.Floor)))];
      }
    }
    r := Success(claimants);
  }

  /** Positive is more than zero: neither zero, nor a negative, nor what is no number at all. */
  lemma PositiveExactly(n: Number)
    ensures Positive(n) <==> match n case NaN => false case Infinite(negative) => !negative case Finite(v) => v > 0.0
  {
  }

  function WithReclaim(sender: string, recipient: string, seconds: real): seq<Claimant> {
    [Claimant(recipient, Unconditional), Claimant(sender, Not(BeforeRel(seconds.Floor)))]
  }

  lemma LockOpens(seconds: int, created: int, t: int)
    ensures LedgerHolds(Not(BeforeRel(seconds)), created, t) <==> t >= created + seconds
  {
    assert Holds(BeforeRel(seconds), t, d => t < created + d) <==> t < created + seconds;
  }

  /**
   A delivery with a reclaim window: the recipient may always claim, the sender exactly from
   `claimableAfter` on, which is the creation plus the whole seconds of the window; below one second
   there is no window at all.
   */
  lemma DeliveryWindows(dates: Dates, b: Balance, sender: string, recipient: string, seconds: real, now: int)
    requires sender != recipient && seconds > 0.0
    requires b.claimants == WithReclaim(sender, recipient, seconds)
    requires ReadsBack(dates, BeforeAbs(b.created + seconds.Floor))
    ensures MayClaim(b, recipient, now / 1000)
    ensures MayClaim(b, sender, now / 1000) <==> now / 1000 >= b.created + seconds.Floor
    ensures var e := EntryOf(dates, RenderBalance(dates, b), sender, now);
            && e.claimableAfter.Some?
            && dates.read(e.claimableAfter.value) == Some(1000 * (b.created + seconds.Floor))
            && (MayClaim(b, sender, now / 1000) <==> now >= dates.read(e.claimableAfter.value).value)
            && (e.claimableNow <==> MayClaim(b, sender, now / 1000))
    ensures EntryOf(dates, RenderBalance(dates, b), recipient, now).claimableNow
    ensures MayClaim(b, sender, b.created) <==> seconds < 1.0
  {
    var at := b.created + seconds.Floor;
    assert at in TimesOf(BeforeAbs(at));
    assert b.claimants[0].destination == recipient && b.claimants[1].destination == sender;
    assert LedgerHolds(b.claimants[0].rule, b.created, now / 1000);
    LockOpens(seconds.Floor, b.created, now / 1000);
    LockOpens(seconds.Floor, b.created, b.created);
    assert TimesOf(Resolve(b.claimants[1].rule, b.created)) == {at};
    var rows := RenderBalance(dates, b).claimants;
    RuleFound(rows, recipient, 0);
    RuleFound(rows, sender, 1);
    assert Resolve(b.claimants[1].rule, b.created) == Not(BeforeAbs(at));
    assert RuleOf(rows, sender).value.not_ == Some(Render(dates, BeforeAbs(at)));
    ResolvedIsExact(dates, b.claimants[1].rule, b.created, now);
  }

  // ---- amounts ----------------------------------------------------------------------------

  function PadStart(s: string, n: nat): (r: string)
    ensures |r| >= n
    decreases n - |s|
  {
    if |s| >= n then s else PadStart("0" + s, n)
  }

  function FormatStroops(stroops: string): string {
    var neg := stroops != "" && stroops[0] == '-';
    var digits := PadStart(if neg then stroops[1..] else stroops, 8);
    (if neg then "-" else "") + digits[..|digits| - 7] + "." + digits[|digits| - 7..]
  }

  predicate IsDigit(c: char) {
    '0' <= c <= '9'
  }

  predicate AllDigits(s: string) {
    forall i :: 0 <= i < |s| ==> IsDigit(s[i])
  }

  function DigitsValue(s: string): nat
    requires AllDigits(s)
  {
    if s == "" then 0 else 10 * DigitsValue(s[..|s| - 1]) + (s[|s| - 1] as int - '0' as int)
  }

  /** A number part with no superfluous zero. */
  predicate Plain(s: string) {
    AllDigits(s) && |s| >= 1 && (s == "0" || s[0] != '0')
  }

  /** A canonical decimal integer: an optional minus, never before zero, and a plain number. */
  predicate CanonicalInteger(s: string) {
    Plain(s) || (|s| >= 2 && s[0] == '-' && Plain(s[1..]) && s[1..] != "0")
  }

  function IntegerValue(s: string): int
    requires CanonicalInteger(s)
  {
    if s[0] == '-' then 0 - DigitsValue(s[1..]) else DigitsValue(s)
  }

  function Pow10(n: nat): (r: nat)
    ensures r >= 1
  {
    if n == 0 then 1 else 10 * Pow10(n - 1)
  }

  /** An amount as printed: sign, plain whole part, a dot, and exactly seven digits. */
  datatype Amount = Amount(negative: bool, whole: string, fraction: string)

  /** The parts that FormatStroops prints. */
  function Printed(stroops: string): Amount {
    var neg := stroops != "" && stroops[0] == '-';
    var digits := PadStart(if neg then stroops[1..] else stroops, 8);
    Amount(neg, digits[..|digits| - 7], digits[|digits| - 7..])
  }

  predicate WellPrinted(a: Amount) {
    Plain(a.whole) && AllDigits(a.fraction) && |a.fraction| == 7
  }

  function Text(a: Amount): string {
    (if a.negative then "-" else "") + a.whole + "." + a.fraction
  }

  /** The number a printed amount denotes. */
  function AmountValue(a: Amount): real
    requires WellPrinted(a)
  {
    var magnitude := DigitsValue(a.whole) as real + DigitsValue(a.fraction) as real / 10_000_000.0;
    if a.negative then -magnitude else magnitude
  }

  lemma {:induction false} DigitsOfConcat(a: string, b: string)
    requires AllDigits(a) && AllDigits(b)
    ensures AllDigits(a + b)
    ensures DigitsValue(a + b) == DigitsValue(a) * Pow10(|b|) + DigitsValue(b)
  {
    if b == "" {
      assert a + b == a;
    } else {
      var b' := b[..|b| - 1];
      DigitsOfConcat(a, b');
      assert (a + b)[..|a + b| - 1] == a + b';
      Distribute(DigitsValue(a), Pow10(|b'|));
    }
  }

  lemma SplitDigits(s: string, n: nat)
    requires AllDigits(s) && n <= |s|
    ensures DigitsValue(s) == DigitsValue(s[..n]) * Pow10(|s| - n) + DigitsValue(s[n..])
  {
    hide DigitsValue;
    hide Pow10;
    assert s[..n] + s[n..] == s;
    DigitsOfConcat(s[..n], s[n..]);
  }

  lemma Distribute(x: int, y: int)
    ensures 10 * (x * y) == x * (10 * y)
  {
  }

  lemma {:induction false} PaddingKeepsValue(s: string, n: nat)
    requires AllDigits(s)
    ensures AllDigits(PadStart(s, n)) && DigitsValue(PadStart(s, n)) == DigitsValue(s)
    ensures |s| >= n ==> PadStart(s, n) == s
    ensures |s| < n ==> |PadStart(s, n)| == n && PadStart(s, n)[0] == '0'
    decreases n - |s|
  {
    if |s| < n {
      DigitsOfConcat("0", s);
      PaddingKeepsValue("0" + s, n);
    }
  }

  lemma PaddedParts(body: string)
    requires Plain(body)
    ensures var digits := PadStart(body, 8);
            var n := |digits| - 7;
            && Plain(digits[..n]) && AllDigits(digits[n..]) && |digits[n..]| == 7
            && DigitsValue(body) == DigitsValue(digits[..n]) * 10_000_000 + DigitsValue(digits[n..])
  {
    hide DigitsValue;
    PaddingKeepsValue(body, 8);
    var digits := PadStart(body, 8);
    var n := |digits| - 7;
    SplitDigits(digits, n);
    assert Pow10(7) == 10_000_000;
    assert |body| < 8 ==> digits[..n] == "0";
  }

  /** Every canonical integer prints as a well-formed amount whose value times ten million is the integer. */
  lemma FormatIsExact(stroops: string)
    requires CanonicalInteger(stroops)
    ensures WellPrinted(Printed(stroops)) && FormatStroops(stroops) == Text(Printed(stroops))
    ensures AmountValue(Printed(stroops)) * 10_000_000.0 == IntegerValue(stroops) as real
  {
    hide DigitsValue;
    hide PadStart;
    PaddedParts(if stroops[0] == '-' then stroops[1..] else stroops);
  }

  /** A printed amount can be read only one way. */
  lemma TextIsInjective(a: Amount, b: Amount)
    requires WellPrinted(a) && WellPrinted(b) && Text(a) == Text(b)
    ensures a == b
  {
    var s := Text(a);
    assert s[0] == if a.negative then '-' else a.whole[0];
    assert s[0] == if b.negative then '-' else b.whole[0];
    assert a.negative == b.negative;
    var k := if a.negative then 1 else 0;
    assert s[|s| - 7..] == a.fraction && s[|s| - 7..] == b.fraction;
    assert s[k..|s| - 8] == a.whole && s[k..|s| - 8] == b.whole;
  }

  lemma {:induction false} DigitsAreUnique(s: string, t: string)
    requires AllDigits(s) && AllDigits(t) && DigitsValue(s) == DigitsValue(t)
    requires (s != "" ==> s[0] != '0') && (t != "" ==> t[0] != '0')
    ensures s == t
  {
    if s == "" {
      if t != "" {
        LeadingDigitCounts(t);
      }
    } else if t == "" {
      LeadingDigitCounts(s);
    } else {
      var s', t' := s[..|s| - 1], t[..|t| - 1];
      assert DigitsValue(s) / 10 == DigitsValue(s') && DigitsValue(t) / 10 == DigitsValue(t');
      DigitsAreUnique(s', t');
      assert s == s' + [s[|s| - 1]] && t == t' + [t[|t| - 1]];
    }
  }

  lemma {:induction false} LeadingDigitCounts(s: string)
    requires AllDigits(s) && s != "" && s[0] != '0'
    ensures DigitsValue(s) > 0
  {
    if |s| > 1 {
      LeadingDigitCounts(s[..|s| - 1]);
    }
  }

  lemma PlainIsUnique(s: string, t: string)
    requires Plain(s) && Plain(t) && DigitsValue(s) == DigitsValue(t)
    ensures s == t
  {
    if s == "0" {
      if t != "0" {
        LeadingDigitCounts(t);
      }
    } else if t == "0" {
      LeadingDigitCounts(s);
    } else {
      DigitsAreUnique(s, t);
    }
  }

  lemma PositiveMagnitude(s: string)
    requires CanonicalInteger(s)
    ensures s[0] == '-' <==> IntegerValue(s) < 0
  {
    if s[0] == '-' {
      LeadingDigitCounts(s[1..]);
    }
  }

  /** Different integers print differently. */
  lemma FormatIsInjective(s: string, t: string)
    requires CanonicalInteger(s) && CanonicalInteger(t) && FormatStroops(s) == FormatStroops(t)
    ensures s == t
  {
    FormatIsExact(s);
    FormatIsExact(t);
    TextIsInjective(Printed(s), Printed(t));
    assert IntegerValue(s) == IntegerValue(t);
    PositiveMagnitude(s);
    PositiveMagnitude(t);
    if s[0] == '-' {
      PlainIsUnique(s[1..], t[1..]);
      assert s == [s[0]] + s[1..] && t == [t[0]] + t[1..];
    } else {
      PlainIsUnique(s, t);
    }
  }
}
