/**
 The per-key token bucket of the relayer's routes, with its size-triggered pruning. Tokens are counted
 in sixty-thousandths, so that a millisecond refills exactly `rpm` of them; the clock never runs back.
 */
module RateLimiter {

  const MINUTE := 60_000
  const STALE := 120_000
  const PRUNE_ABOVE := 10_000

  datatype Bucket = Bucket(tokens: int, last: int)

  type Key = string
  type Buckets = map<Key, Bucket>

  datatype Event = Event(key: Key, now: int)

  function Min(a: int, b: int): int {
    if a < b then a else b
  }

  function Cap(rpm: nat): int {
    rpm * MINUTE
  }

  /** Every elapsed millisecond refills rpm token fractions. */
  function Refill(rpm: nat, ms: int): int
    decreases if ms < 0 then -ms else ms
  {
    if ms == 0 then 0 else if ms > 0 then Refill(rpm, ms - 1) + rpm else Refill(rpm, ms + 1) - rpm
  }

  lemma {:induction false} RefillIsProduct(rpm: nat, ms: int)
    ensures Refill(rpm, ms) == ms * rpm
    decreases if ms < 0 then -ms else ms
  {
    if ms > 0 {
      RefillIsProduct(rpm, ms - 1);
    } else if ms < 0 {
      RefillIsProduct(rpm, ms + 1);
    }
  }

  /** What a key has available at a given time; an absent key is a full bucket. */
  function Level(rpm: nat, m: Buckets, key: Key, now: int): int {
    if key in m then Min(Cap(rpm), m[key].tokens + Refill(rpm, now - m[key].last)) else Cap(rpm)
  }

  function Prune(m: Buckets, now: int): Buckets {
    map k | k in m && now - m[k].last <= STALE :: m[k]
  }

  function Spend(rpm: nat, m: Buckets, e: Event): (Buckets, bool) {
    var level := Level(rpm, m, e.key, e.now);
    if level < MINUTE then (m[e.key := Bucket(level, e.now)], false)
    else (m[e.key := Bucket(level - MINUTE, e.now)], true)
  }

  /** One call, with the map pruned first when it holds more than `above` buckets. */
  function Allow(rpm: nat, above: nat, m: Buckets, e: Event): (Buckets, bool) {
    if rpm == 0 then (m, true)
    else Spend(rpm, if |m| > above then Prune(m, e.now) else m, e)
  }

  /** The limiter itself: a mutable map of buckets, pruned in a loop when it has grown large. */
  class TokenBuckets {
    const rpm: nat
    var buckets: Buckets

    constructor (rpm: nat)
      ensures this.rpm == rpm && buckets == map[]
    {
      this.rpm := rpm;
      buckets := map[];
    }

    method PruneStale(now: int)
      modifies this
      ensures buckets == Prune(old(buckets), now)
    {
      var todo := buckets.Keys;
      while todo != {}
        invariant todo <= old(buckets).Keys
        invariant buckets == map k | k in old(buckets) && (k in todo || now - old(buckets)[k].last <= STALE)
                             :: old(buckets)[k]
        decreases todo
      {
        var k :| k in todo;
        todo := todo - {k};
        if now - buckets[k].last > STALE {
          buckets := buckets - {k};
        }
      }
    }

    method AllowRequest(key: Key, now: int) returns (ok: bool)
      modifies this
      ensures (buckets, ok) == Allow(rpm, PRUNE_ABOVE, old(buckets), Event(key, now))
    {
      if rpm == 0 {
        return true;
      }
      if |buckets| > PRUNE_ABOVE {
        PruneStale(now);
      }
      var b := if key in buckets then buckets[key] else Bucket(Cap(rpm), now);
      RefillIsProduct(rpm, now - b.last);
      b := b.(tokens := Min(Cap(rpm), b.tokens + (now - b.last) * rpm));
      b := b.(last := now);
      if b.tokens < MINUTE {
        buckets := buckets[key := b];
        return false;
      }
      b := b.(tokens := b.tokens - MINUTE);
      buckets := buckets[key := b];
      ok := true;
    }
  }

  // ---- runs -------------------------------------------------------------------------------

  predicate Monotone(run: seq<Event>) {
    forall i, j :: 0 <= i < j < |run| ==> run[i].now <= run[j].now
  }

  /** The buckets after a run, starting empty. */
  function After(rpm: nat, above: nat, run: seq<Event>): Buckets {
    if run == [] then map[]
    else Allow(rpm, above, After(rpm, above, run[..|run| - 1]), run[|run| - 1]).0
  }

  /** The decision on the last call of a run. */
  function Decision(rpm: nat, above: nat, run: seq<Event>): bool
    requires run != []
  {
    Allow(rpm, above, After(rpm, above, run[..|run| - 1]), run[|run| - 1]).1
  }

  // ---- the ideal bucket of one key --------------------------------------------------------

  /** Tokens right after the last of a key's own calls, nothing shared and nothing pruned. */
  function IdealTokens(rpm: nat, times: seq<int>): int
    decreases |times|, 0
  {
    if times == [] then Cap(rpm)
    else
      var level := IdealLevel(rpm, times[..|times| - 1], times[|times| - 1]);
      if level < MINUTE then level else level - MINUTE
  }

  function IdealLevel(rpm: nat, times: seq<int>, now: int): int
    decreases |times|, 1
  {
    if times == [] then Cap(rpm)
    else Min(Cap(rpm), IdealTokens(rpm, times) + Refill(rpm, now - times[|times| - 1]))
  }

  function Ideal(rpm: nat, times: seq<int>): bool
    requires times != []
  {
    rpm == 0 || IdealLevel(rpm, times[..|times| - 1], times[|times| - 1]) >= MINUTE
  }

  /** The times at which a key was called. */
  function TimesOf(run: seq<Event>, key: Key): seq<int> {
    if run == [] then []
    else TimesOf(run[..|run| - 1], key) + if run[|run| - 1].key == key then [run[|run| - 1].now] else []
  }

  // the three facts about refilling that everything below rests on

  lemma RefillAdds(rpm: nat, a: int, b: int)
    ensures Refill(rpm, a + b) == Refill(rpm, a) + Refill(rpm, b)
  {
    RefillIsProduct(rpm, a + b);
    RefillIsProduct(rpm, a);
    RefillIsProduct(rpm, b);
  }

  lemma RefillGrows(rpm: nat, a: int, b: int)
    requires a <= b
    ensures Refill(rpm, a) <= Refill(rpm, b) && Refill(rpm, 0) == 0
  {
    RefillIsProduct(rpm, a);
    RefillIsProduct(rpm, b);
    assert (b - a) * rpm >= 0;
  }

  lemma StaleIsFull(rpm: nat, ms: int)
    requires ms > STALE
    ensures Refill(rpm, ms) >= Cap(rpm)
  {
    RefillGrows(rpm, MINUTE, ms);
    RefillIsProduct(rpm, MINUTE);
  }

  predicate Increasing(times: seq<int>) {
    forall i, j :: 0 <= i < j < |times| ==> times[i] <= times[j]
  }

  lemma {:induction false} TokensInRange(rpm: nat, times: seq<int>)
    requires Increasing(times)
    ensures 0 <= IdealTokens(rpm, times) <= Cap(rpm)
  {
    if times != [] {
      var front, now := times[..|times| - 1], times[|times| - 1];
      TokensInRange(rpm, front);
      if front != [] {
        RefillGrows(rpm, 0, now - front[|front| - 1]);
      }
    }
  }

  // ---- pruning is invisible ---------------------------------------------------------------

  lemma {:induction false} OwnTimes(run: seq<Event>, key: Key)
    requires Monotone(run)
    ensures Increasing(TimesOf(run, key))
    ensures run != [] ==> forall i :: 0 <= i < |TimesOf(run, key)| ==> TimesOf(run, key)[i] <= run[|run| - 1].now
  {
    if run != [] {
      OwnTimes(run[..|run| - 1], key);
    }
  }

  /** A bucket holds its key's ideal state; a key without a bucket was never called or is stale. */
  ghost predicate Tracks(rpm: nat, m: Buckets, run: seq<Event>, key: Key) {
    var times := TimesOf(run, key);
    if key in m then
      times != [] && m[key] == Bucket(IdealTokens(rpm, times), times[|times| - 1])
    else
      times == [] || (run != [] && run[|run| - 1].now - times[|times| - 1] > STALE)
  }

  /** Seen from any later call, a tracked key has its ideal level: what was pruned had refilled. */
  lemma LevelIsIdeal(rpm: nat, m: Buckets, run: seq<Event>, key: Key, now: int)
    requires Monotone(run) && Tracks(rpm, m, run, key)
    requires run != [] ==> run[|run| - 1].now <= now
    ensures Level(rpm, m, key, now) == IdealLevel(rpm, TimesOf(run, key), now)
  {
    hide Refill;
    hide TimesOf;
    hide IdealTokens;
    hide Cap;
    var times := TimesOf(run, key);
    OwnTimes(run, key);
    if key !in m && times != [] {
      TokensInRange(rpm, times);
      StaleIsFull(rpm, now - times[|times| - 1]);
    }
  }

  lemma PrunedLevelIsIdeal(rpm: nat, above: nat, front: seq<Event>, e: Event, key: Key)
    requires rpm > 0 && Monotone(front + [e])
    ensures var m := After(rpm, above, front);
            Level(rpm, if |m| > above then Prune(m, e.now) else m, key, e.now)
            == IdealLevel(rpm, TimesOf(front, key), e.now)
    decreases |front|, 1
  {
    hide Refill;
    hide After;
    hide IdealTokens;
    hide Cap;
    var m := After(rpm, above, front);
    assert Monotone(front) by {
      assert forall i :: 0 <= i < |front| ==> front[i] == (front + [e])[i];
    }
    assert front != [] ==> front[|front| - 1] == (front + [e])[|front| - 1] && (front + [e])[|front|] == e;
    AlwaysTracks(rpm, above, front, key);
    LevelIsIdeal(rpm, m, front, key, e.now);
    if key in m && e.now - m[key].last > STALE {
      OwnTimes(front, key);
      TokensInRange(rpm, TimesOf(front, key));
      StaleIsFull(rpm, e.now - m[key].last);
    }
  }

  lemma OneMoreCall(rpm: nat, times: seq<int>, now: int)
    ensures var level := IdealLevel(rpm, times, now);
            && IdealTokens(rpm, times + [now]) == (if level < MINUTE then level else level - MINUTE)
            && (Ideal(rpm, times + [now]) <==> rpm == 0 || level >= MINUTE)
  {
    assert (times + [now])[..|times|] == times;
  }

  lemma {:induction false} AlwaysTracks(rpm: nat, above: nat, run: seq<Event>, key: Key)
    requires rpm > 0 && Monotone(run)
    ensures Tracks(rpm, After(rpm, above, run), run, key)
    decreases |run|, 0
  {
    if run != [] {
      var front, e := run[..|run| - 1], run[|run| - 1];
      assert front + [e] == run;
      AlwaysTracks(rpm, above, front, key);
      if key == e.key {
        PrunedLevelIsIdeal(rpm, above, front, e, key);
        OneMoreCall(rpm, TimesOf(front, key), e.now);
        assert TimesOf(run, key) == TimesOf(front, key) + [e.now];
      } else {
        OtherKeyTracks(rpm, above, front, e, key);
      }
    }
  }

  lemma OtherKeyTracks(rpm: nat, above: nat, front: seq<Event>, e: Event, key: Key)
    requires rpm > 0 && Monotone(front + [e]) && key != e.key
    requires Tracks(rpm, After(rpm, above, front), front, key)
    ensures Tracks(rpm, After(rpm, above, front + [e]), front + [e], key)
  {
    var run := front + [e];
    assert run[..|run| - 1] == front;
    assert TimesOf(run, key) == TimesOf(front, key);
    assert front != [] ==> front[|front| - 1] == run[|front| - 1] && run[|front|] == e;
  }

  /**
   Every decision is the ideal one, a function of the key's own call times alone: neither the other
   keys nor the pruning, wherever its threshold lies, can be noticed.
   */
  lemma PruningIsInvisible(rpm: nat, above: nat, run: seq<Event>)
    requires Monotone(run) && run != []
    ensures Decision(rpm, above, run) == Ideal(rpm, TimesOf(run, run[|run| - 1].key))
  {
    var front, e := run[..|run| - 1], run[|run| - 1];
    assert front + [e] == run;
    assert TimesOf(run, e.key) == TimesOf(front, e.key) + [e.now];
    OneMoreCall(rpm, TimesOf(front, e.key), e.now);
    if rpm > 0 {
      PrunedLevelIsIdeal(rpm, above, front, e, e.key);
    }
  }

  // ---- refused calls cost nothing ---------------------------------------------------------

  function GrantedTimes(rpm: nat, times: seq<int>): seq<int> {
    if times == [] then []
    else GrantedTimes(rpm, times[..|times| - 1])
         + if Ideal(rpm, times) then [times[|times| - 1]] else []
  }

  lemma {:induction false} RefusalsKeepLevel(rpm: nat, times: seq<int>, now: int)
    requires rpm > 0 && Increasing(times) && (times != [] ==> times[|times| - 1] <= now)
    ensures IdealLevel(rpm, times, now) == IdealLevel(rpm, GrantedTimes(rpm, times), now)
  {
    if times != [] {
      var front, t := times[..|times| - 1], times[|times| - 1];
      RefusalsKeepLevel(rpm, front, t);
      var granted := GrantedTimes(rpm, front);
      if Ideal(rpm, times) {
        assert (granted + [t])[..|granted|] == granted;
      } else {
        RefusalsKeepLevel(rpm, front, now);
        assert GrantedTimes(rpm, times) == granted;
        if front != [] {
          RefillAdds(rpm, now - t, t - front[|front| - 1]);
        }
      }
    }
  }

  /** Striking the refused calls from a key's history changes no decision that comes after them. */
  lemma RefusalsLeaveNoTrace(rpm: nat, times: seq<int>, now: int)
    requires rpm > 0 && Increasing(times) && (times != [] ==> times[|times| - 1] <= now)
    ensures Ideal(rpm, times + [now]) == Ideal(rpm, GrantedTimes(rpm, times) + [now])
  {
    RefusalsKeepLevel(rpm, times, now);
    var g := GrantedTimes(rpm, times);
    assert (times + [now])[..|times|] == times && (g + [now])[..|g|] == g;
  }

  /** The run without the calls it refused, whoever made them. */
  function GrantedRun(rpm: nat, above: nat, run: seq<Event>): seq<Event> {
    if run == [] then []
    else GrantedRun(rpm, above, run[..|run| - 1]) + if Decision(rpm, above, run) then [run[|run| - 1]] else []
  }

  lemma MonotoneFront(run: seq<Event>)
    requires Monotone(run) && run != []
    ensures var front := run[..|run| - 1];
            Monotone(front) && forall i :: 0 <= i < |front| ==> front[i].now <= run[|run| - 1].now
  {
  }

  lemma {:induction false} GrantedRunOrder(rpm: nat, above: nat, run: seq<Event>, now: int)
    requires Monotone(run) && forall i :: 0 <= i < |run| ==> run[i].now <= now
    ensures Monotone(GrantedRun(rpm, above, run) + [Event("", now)])
  {
    hide Decision;
    if run != [] {
      var front, last := run[..|run| - 1], run[|run| - 1];
      MonotoneFront(run);
      GrantedRunOrder(rpm, above, front, last.now);
      var g := GrantedRun(rpm, above, front);
      assert forall i :: 0 <= i < |g| ==> (g + [Event("", last.now)])[i] == g[i];
      assert (g + [Event("", last.now)])[|g|].now == last.now;
    }
  }

  lemma OneMoreOwn(run: seq<Event>, e: Event, key: Key)
    ensures TimesOf(run + [e], key) == if e.key == key then TimesOf(run, key) + [e.now] else TimesOf(run, key)
  {
    assert (run + [e])[..|run|] == run;
  }

  /** What striking leaves of a key is what the ideal bucket granted it. */
  lemma {:induction false} GrantedRunTimes(rpm: nat, above: nat, run: seq<Event>, key: Key)
    requires Monotone(run)
    ensures TimesOf(GrantedRun(rpm, above, run), key) == GrantedTimes(rpm, TimesOf(run, key))
  {
    hide Decision;
    hide Ideal;
    if run != [] {
      var front, last := run[..|run| - 1], run[|run| - 1];
      MonotoneFront(run);
      GrantedRunTimes(rpm, above, front, key);
      assert run == front + [last];
      OneMoreOwn(front, last, key);
      PruningIsInvisible(rpm, above, run);
      OneMoreOwn(GrantedRun(rpm, above, front), last, key);
      hide TimesOf;
      var times, g := TimesOf(front, key), GrantedRun(rpm, above, front);
      assert (times + [last.now])[..|times|] == times;
      assert g + [] == g && GrantedTimes(rpm, times) + [] == GrantedTimes(rpm, times);
    }
  }

  /** Striking every refused call of a run, of any key, changes no decision that comes after it. */
  lemma RunRefusalsLeaveNoTrace(rpm: nat, above: nat, run: seq<Event>, e: Event)
    requires Monotone(run + [e])
    ensures Decision(rpm, above, run + [e]) == Decision(rpm, above, GrantedRun(rpm, above, run) + [e])
  {
    hide Decision;
    var g := GrantedRun(rpm, above, run);
    MonotoneFront(run + [e]);
    assert (run + [e])[..|run|] == run;
    GrantedRunOrder(rpm, above, run, e.now);
    assert forall i :: 0 <= i < |g| + 1 ==> (g + [e])[i].now == (g + [Event("", e.now)])[i].now;
    PruningIsInvisible(rpm, above, run + [e]);
    PruningIsInvisible(rpm, above, g + [e]);
    OneMoreOwn(run, e, e.key);
    OneMoreOwn(g, e, e.key);
    GrantedRunTimes(rpm, above, run, e.key);
    OwnTimes(run, e.key);
    hide TimesOf;
    hide GrantedTimes;
    hide GrantedRun;
    hide IdealLevel;
    if rpm > 0 {
      RefusalsLeaveNoTrace(rpm, TimesOf(run, e.key), e.now);
    }
  }

  // ---- how much a window can grant --------------------------------------------------------

  /** Calls i to j - 1 of a key that were granted. */
  function Granted(rpm: nat, times: seq<int>, i: nat, j: nat): nat
    requires i <= j <= |times|
  {
    if i == j then 0
    else Granted(rpm, times, i, j - 1) + if Ideal(rpm, times[..j]) then 1 else 0
  }

  lemma Spent(rpm: nat, times: seq<int>, j: nat)
    requires rpm > 0 && 0 < j <= |times|
    ensures IdealTokens(rpm, times[..j])
            == IdealLevel(rpm, times[..j - 1], times[j - 1]) - if Ideal(rpm, times[..j]) then MINUTE else 0
  {
    assert times[..j][..j - 1] == times[..j - 1];
  }

  lemma {:induction false} WindowSpend(rpm: nat, times: seq<int>, i: nat, j: nat)
    requires rpm > 0 && Increasing(times) && i < j <= |times|
    ensures MINUTE * Granted(rpm, times, i, j) + IdealTokens(rpm, times[..j])
            <= Cap(rpm) + Refill(rpm, times[j - 1] - times[i])
  {
    Spent(rpm, times, j);
    if j == i + 1 {
      RefillGrows(rpm, 0, 0);
    } else {
      WindowSpend(rpm, times, i, j - 1);
      assert times[..j - 1][j - 2] == times[j - 2];
      RefillAdds(rpm, times[j - 1] - times[j - 2], times[j - 2] - times[i]);
    }
  }

  /** Over any interval of d milliseconds a key is granted at most rpm + d * rpm / 60000 calls. */
  lemma WindowBound(rpm: nat, times: seq<int>, i: nat, j: nat, d: int)
    requires rpm > 0 && Increasing(times) && i < j <= |times| && times[j - 1] - times[i] <= d
    ensures 60_000 * Granted(rpm, times, i, j) <= rpm * (60_000 + d)
  {
    WindowSpend(rpm, times, i, j);
    TokensInRange(rpm, times[..j]);
    RefillGrows(rpm, times[j - 1] - times[i], d);
    Budget(rpm, d);
  }

  /** What a bucket that starts full can spend in a stretch of time, as a product. */
  lemma Budget(rpm: nat, ms: int)
    ensures Cap(rpm) + Refill(rpm, ms) == rpm * (60_000 + ms)
  {
    RefillIsProduct(rpm, ms);
  }

  /** Calls from position i on and before j of a run that were made for the key and granted. */
  function GrantedIn(rpm: nat, above: nat, run: seq<Event>, key: Key, i: nat, j: nat): nat
    requires i <= j <= |run|
  {
    if i == j then 0
    else GrantedIn(rpm, above, run, key, i, j - 1)
         + if run[j - 1].key == key && Decision(rpm, above, run[..j]) then 1 else 0
  }

  lemma OneMoreTime(run: seq<Event>, key: Key, j: nat)
    requires Monotone(run) && 0 < j <= |run|
    ensures Monotone(run[..j]) && run[..j][j - 1] == run[j - 1]
    ensures TimesOf(run[..j], key)
            == var before := TimesOf(run[..j - 1], key);
               if run[j - 1].key == key then before + [run[j - 1].now] else before
  {
    assert run[..j][..j - 1] == run[..j - 1];
  }

  /** In a run, a key's grants between two positions are those of its own times between the two counts. */
  lemma {:induction false} GrantedInTimes(rpm: nat, above: nat, run: seq<Event>, key: Key, i: nat, j: nat)
    requires Monotone(run) && i <= j <= |run|
    ensures |TimesOf(run[..i], key)| <= |TimesOf(run[..j], key)|
    ensures GrantedIn(rpm, above, run, key, i, j)
            == Granted(rpm, TimesOf(run[..j], key), |TimesOf(run[..i], key)|, |TimesOf(run[..j], key)|)
    ensures forall m :: |TimesOf(run[..i], key)| <= m < |TimesOf(run[..j], key)| ==>
              TimesOf(run[..j], key)[m] >= run[i].now
  {
    hide TimesOf;
    hide Decision;
    hide Ideal;
    if i < j {
      GrantedInTimes(rpm, above, run, key, i, j - 1);
      OneMoreTime(run, key, j);
      if run[j - 1].key == key {
        PruningIsInvisible(rpm, above, run[..j]);
        GrantedLast(rpm, TimesOf(run[..j - 1], key), run[j - 1].now, |TimesOf(run[..i], key)|);
      }
    }
  }

  /** The same bound on the limiter itself: over any stretch of any run, among any other keys' calls. */
  lemma RunWindowBound(rpm: nat, above: nat, run: seq<Event>, key: Key, i: nat, j: nat, d: int)
    requires rpm > 0 && Monotone(run) && i < j <= |run| && run[j - 1].now - run[i].now <= d
    ensures 60_000 * GrantedIn(rpm, above, run, key, i, j) <= rpm * (60_000 + d)
  {
    hide Decision;
    GrantedInTimes(rpm, above, run, key, i, j);
    OneMoreTime(run, key, j);
    OwnTimes(run[..j], key);
    hide TimesOf;
    var times, from := TimesOf(run[..j], key), |TimesOf(run[..i], key)|;
    RefillGrows(rpm, 0, d);
    Budget(rpm, d);
    if from < |times| {
      WindowBound(rpm, times, from, |times|, d);
    }
  }

  /** Some window is tight: the level is what the most loaded window ending now leaves over. */
  lemma {:induction false} TightWindow(rpm: nat, times: seq<int>, now: int) returns (i: nat)
    requires rpm > 0 && Increasing(times) && (times != [] ==> times[|times| - 1] <= now)
    ensures i <= |times|
    ensures IdealLevel(rpm, times, now)
            == if i == |times| then Cap(rpm)
               else Cap(rpm) + Refill(rpm, now - times[i]) - MINUTE * Granted(rpm, times, i, |times|)
  {
    hide Refill;
    i := |times|;
    if IdealLevel(rpm, times, now) != Cap(rpm) {
      var n := |times| - 1;
      var front, t := times[..n], times[n];
      i := TightWindow(rpm, front, t);
      Spent(rpm, times, n + 1);
      assert times[..n + 1] == times;
      assert Granted(rpm, times, i, n + 1) == Granted(rpm, times, i, n) + if Ideal(rpm, times) then 1 else 0;
      GrantedOfPrefix(rpm, times, i, n);
      RefillAdds(rpm, now - t, t - times[i]);
    }
  }

  lemma {:induction false} GrantedOfPrefix(rpm: nat, times: seq<int>, i: nat, n: nat)
    requires i <= n <= |times|
    ensures Granted(rpm, times[..n], i, n) == Granted(rpm, times, i, n)
  {
    GrantedUpTo(rpm, times, i, n, n);
  }

  lemma {:induction false} GrantedUpTo(rpm: nat, times: seq<int>, i: nat, j: nat, n: nat)
    requires i <= j <= n <= |times|
    ensures Granted(rpm, times[..n], i, j) == Granted(rpm, times, i, j)
  {
    if i < j {
      GrantedUpTo(rpm, times, i, j - 1, n);
      assert times[..n][..j] == times[..j];
    }
  }

  lemma GrantedLast(rpm: nat, times: seq<int>, now: int, i: nat)
    requires i <= |times|
    ensures Granted(rpm, times + [now], i, |times| + 1)
            == Granted(rpm, times, i, |times|) + if Ideal(rpm, times + [now]) then 1 else 0
  {
    var all := times + [now];
    assert all[..|times|] == times && all[..|times| + 1] == all;
    GrantedOfPrefix(rpm, all, i, |times|);
  }

  /** The window that starts at call i and ends now has room for one more grant. */
  predicate Room(rpm: nat, times: seq<int>, now: int, i: nat)
    requires i < |times|
  {
    60_000 * (Granted(rpm, times, i, |times|) + 1) <= rpm * (60_000 + (now - times[i]))
  }

  /**
   The limiter is the greedy one: a call is granted exactly when one more grant keeps every window that
   ends with it within budget, so it never refuses without need.
   */
  lemma GrantedIffEveryWindowAllows(rpm: nat, times: seq<int>, now: int)
    requires rpm > 0 && Increasing(times) && (times != [] ==> times[|times| - 1] <= now)
    ensures Ideal(rpm, times + [now]) <==> forall i :: 0 <= i < |times| ==> Room(rpm, times, now, i)
  {
    OneMoreCall(rpm, times, now);
    if Ideal(rpm, times + [now]) {
      forall i | 0 <= i < |times|
        ensures Room(rpm, times, now, i)
      {
        WindowBound(rpm, times + [now], i, |times| + 1, now - times[i]);
        GrantedLast(rpm, times, now, i);
      }
    } else {
      var i := TightWindow(rpm, times, now);
      Budget(rpm, now - times[i]);
      assert !Room(rpm, times, now, i);
    }
  }

  /** A key that waits 60000 / rpm milliseconds since its last call is always granted. */
  lemma PatientIsGranted(rpm: nat, times: seq<int>, now: int)
    requires rpm > 0 && Increasing(times)
    requires times != [] ==> (now - times[|times| - 1]) * rpm >= 60_000
    ensures Ideal(rpm, times + [now])
  {
    if times != [] {
      RefillIsProduct(rpm, now - times[|times| - 1]);
    }
    TokensInRange(rpm, times);
    assert (times + [now])[..|times|] == times;
    assert Cap(rpm) >= MINUTE;
  }

  // ---- memory -----------------------------------------------------------------------------

  /** Keys called within the staleness horizon of the last call. */
  function RecentKeys(run: seq<Event>): set<Key>
    requires run != []
  {
    set e | e in run && run[|run| - 1].now - e.now <= 120_000 :: e.key
  }

  lemma {:induction false} BucketsComeFromCalls(rpm: nat, above: nat, run: seq<Event>, key: Key)
    requires key in After(rpm, above, run)
    ensures Event(key, After(rpm, above, run)[key].last) in run
  {
    if run != [] {
      var front := run[..|run| - 1];
      assert run == front + [run[|run| - 1]];
      if !(rpm > 0 && key == run[|run| - 1].key) {
        BucketsComeFromCalls(rpm, above, front, key);
      }
    }
  }

  lemma {:induction false} NoBucketsWhenDisabled(above: nat, run: seq<Event>)
    ensures After(0, above, run) == map[]
  {
    if run != [] {
      NoBucketsWhenDisabled(above, run[..|run| - 1]);
    }
  }

  lemma SubsetSize<T>(a: set<T>, b: set<T>)
    requires a <= b
    ensures |a| <= |b|
  {
    assert b == a + (b - a);
  }

  /** The map never outgrows the larger of its threshold plus one and the keys called in two minutes. */
  lemma MemoryBound(rpm: nat, above: nat, run: seq<Event>)
    requires Monotone(run) && run != []
    ensures |After(rpm, above, run)| <= above + 1 || |After(rpm, above, run)| <= |RecentKeys(run)|
  {
    if rpm == 0 {
      NoBucketsWhenDisabled(above, run);
    } else {
      var front, e := run[..|run| - 1], run[|run| - 1];
      var m := After(rpm, above, front);
      var kept := if |m| > above then Prune(m, e.now) else m;
      var m' := After(rpm, above, run);
      assert m'.Keys == kept.Keys + {e.key};
      if |m| > above {
        forall k | k in m'
          ensures k in RecentKeys(run)
        {
          BucketsComeFromCalls(rpm, above, run, k);
          assert run[|run| - 1].now - m'[k].last <= STALE;
        }
        SubsetSize(m'.Keys, RecentKeys(run));
      } else {
        assert |m'.Keys| <= |kept.Keys| + 1;
      }
    }
  }

  /** The limiter as it is configured: ten thousand and one buckets, or the keys of the last two minutes. */
  lemma LimiterMemory(rpm: nat, run: seq<Event>)
    requires Monotone(run) && run != []
    ensures |After(rpm, PRUNE_ABOVE, run)| <= 10_001 || |After(rpm, PRUNE_ABOVE, run)| <= |RecentKeys(run)|
  {
    MemoryBound(rpm, PRUNE_ABOVE, run);
    hide RecentKeys;
    hide After;
  }

  /** Only stale buckets are ever dropped, and only by a call that finds more of them than the threshold. */
  lemma BucketsKept(rpm: nat, above: nat, m: Buckets, e: Event, key: Key)
    requires key in m
    ensures key in Allow(rpm, above, m, e).0
            <==> rpm == 0 || key == e.key || |m| <= above || e.now - m[key].last <= 120_000
    ensures key in Allow(rpm, above, m, e).0 && key != e.key ==> Allow(rpm, above, m, e).0[key] == m[key]
  {
  }

  /** A limit of zero lets every call pass and remembers none. */
  lemma ZeroDisables(above: nat, run: seq<Event>)
    requires run != []
    ensures Decision(0, above, run) && After(0, above, run) == map[]
  {
    NoBucketsWhenDisabled(above, run);
  }
}
