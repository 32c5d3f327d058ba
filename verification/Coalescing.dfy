/**
 Concurrent authorize requests for one (network, asset, account) share one run. The event loop may
 interleave arrivals with the completions of any run's chain read, submission and clean-up in any order.
 */
module Coalescing {

  type Key = string

  datatype Answer = NotRegulated | AlreadyAuthorized | Authorized | ChainError | Rejected

  /**
   A run waits for its chain read, then for its submission; once settled its promise has a value, and
   the clean-up that removes its map entry runs some time after.
   */
  datatype Phase = Viewing | Submitting | Settled(answer: Answer) | Removed(answer: Answer)

  datatype Run = Run(key: Key, phase: Phase)

  /** `requests` records the run each request was given; `ready` is the chain: the keys authorized on it. */
  datatype State = State(runs: seq<Run>, inflight: map<Key, nat>, requests: seq<nat>, ready: set<Key>)

  /** What the event loop delivers next. A chain read either reports the truth or rejects. */
  datatype Event =
    | Arrive(key: Key, regulated: bool)
    | ReadDone(run: nat, ok: bool)
    | SubmitDone(run: nat, ok: bool)
    | CleanUp(run: nat)
    | AuthorizedElsewhere(key: Key)

  predicate Enabled(s: State, e: Event) {
    match e
    case Arrive(_, _) => true
    case ReadDone(r, _) => r < |s.runs| && s.runs[r].phase.Viewing?
    case SubmitDone(r, _) => r < |s.runs| && s.runs[r].phase.Submitting?
    case CleanUp(r) => r < |s.runs| && s.runs[r].phase.Settled?
    case AuthorizedElsewhere(_) => true
  }

  function WithPhase(s: State, r: nat, phase: Phase): State
    requires r < |s.runs|
  {
    s.(runs := s.runs[r := s.runs[r].(phase := phase)])
  }

  function Next(s: State, e: Event): State
    requires Enabled(s, e)
  {
    match e
    case Arrive(key, regulated) =>
      if key in s.inflight then s.(requests := s.requests + [s.inflight[key]])
      else
        var r := |s.runs|;
        s.(runs := s.runs + [Run(key, if regulated then Viewing else Settled(NotRegulated))],
           inflight := s.inflight[key := r],
           requests := s.requests + [r])
    case ReadDone(r, ok) =>
      WithPhase(s, r, if !ok then Settled(Rejected)
                      else if s.runs[r].key in s.ready then Settled(AlreadyAuthorized) else Submitting)
    case SubmitDone(r, ok) =>
      var s' := WithPhase(s, r, if ok then Settled(Authorized) else Settled(ChainError));
      if ok then s'.(ready := s.ready + {s.runs[r].key}) else s'
    case CleanUp(r) =>
      WithPhase(s, r, Removed(s.runs[r].phase.answer)).(inflight := s.inflight - {s.runs[r].key})
    case AuthorizedElsewhere(key) => s.(ready := s.ready + {key})
  }

  const EMPTY := State([], map[], [], {})

  ghost predicate IsTrace(trace: seq<State>, events: seq<Event>) {
    && |trace| == |events| + 1
    && trace[0].runs == [] && trace[0].inflight == map[] && trace[0].requests == []
    && forall i :: 0 <= i < |events| ==> Enabled(trace[i], events[i]) && trace[i + 1] == Next(trace[i], events[i])
  }

  /** The route's module-level map and the event handlers around it. */
  class AuthorizeRoute {
    var runs: seq<Run>
    var inflight: map<Key, nat>
    var requests: seq<nat>
    var ready: set<Key>

    function View(): State
      reads this
    {
      State(runs, inflight, requests, ready)
    }

    constructor ()
      ensures View() == EMPTY
    {
      runs, inflight, requests, ready := [], map[], [], {};
    }

    method HandleAuthorizeRequest(key: Key, regulated: bool) returns (pending: nat)
      modifies this
      ensures View() == Next(old(View()), Arrive(key, regulated))
      ensures pending == requests[|requests| - 1]
    {
      if key in inflight {
        pending := inflight[key];
        requests := requests + [pending];
        return;
      }
      pending := |runs|;
      runs := runs + [Run(key, if regulated then Viewing else Settled(NotRegulated))];
      inflight := inflight[key := pending];
      requests := requests + [pending];
    }

    method OnRead(r: nat, ok: bool)
      requires Enabled(View(), ReadDone(r, ok))
      modifies this
      ensures View() == Next(old(View()), ReadDone(r, ok))
    {
      if !ok {
        runs := runs[r := runs[r].(phase := Settled(Rejected))];
      } else if runs[r].key in ready {
        runs := runs[r := runs[r].(phase := Settled(AlreadyAuthorized))];
      } else {
        runs := runs[r := runs[r].(phase := Submitting)];
      }
    }

    method OnSubmitted(r: nat, ok: bool)
      requires Enabled(View(), SubmitDone(r, ok))
      modifies this
      ensures View() == Next(old(View()), SubmitDone(r, ok))
    {
      var key := runs[r].key;
      runs := runs[r := runs[r].(phase := if ok then Settled(Authorized) else Settled(ChainError))];
      if ok {
        ready := ready + {key};
      }
    }

    method OnFinally(r: nat)
      requires Enabled(View(), CleanUp(r))
      modifies this
      ensures View() == Next(old(View()), CleanUp(r))
    {
      var key, answer := runs[r].key, runs[r].phase.answer;
      inflight := inflight - {key};
      runs := runs[r := runs[r].(phase := Removed(answer))];
    }
  }

  // ---- what every interleaving keeps ------------------------------------------------------

  predicate Live(s: State, r: int) {
    0 <= r < |s.runs| && !s.runs[r].phase.Removed?
  }

  predicate Succeeded(s: State, r: int) {
    0 <= r < |s.runs| && (s.runs[r].phase.Settled? || s.runs[r].phase.Removed?) && s.runs[r].phase.answer.Authorized?
  }

  /** The map is exactly the live runs. */
  ghost predicate MapIsLive(s: State) {
    && (forall k :: k in s.inflight ==> Live(s, s.inflight[k]) && s.runs[s.inflight[k]].key == k)
    && (forall r :: Live(s, r) ==> s.runs[r].key in s.inflight && s.inflight[s.runs[r].key] == r)
    && (forall i :: 0 <= i < |s.requests| ==> s.requests[i] < |s.runs|)
  }

  /** A run submits only for a key that no run has authorized yet. */
  ghost predicate SubmitsOnce(s: State) {
    && (forall r :: Succeeded(s, r) ==> s.runs[r].key in s.ready)
    && (forall r, q :: Live(s, r) && s.runs[r].phase.Submitting? && Succeeded(s, q) ==> s.runs[q].key != s.runs[r].key)
  }

  ghost predicate Inv(s: State) {
    MapIsLive(s) && SubmitsOnce(s)
  }

  lemma StepKeepsMap(s: State, e: Event)
    requires MapIsLive(s) && Enabled(s, e)
    ensures MapIsLive(Next(s, e))
  {
    var s' := Next(s, e);
    assert forall r :: Live(s', r) ==> Live(s, r) || r == |s.runs|;
  }

  lemma StepKeepsSuccess(s: State, e: Event)
    requires Inv(s) && Enabled(s, e)
    ensures SubmitsOnce(Next(s, e))
  {
    var s' := Next(s, e);
    if e.SubmitDone? {
      forall r, q | Live(s', r) && s'.runs[r].phase.Submitting? && Succeeded(s', q)
        ensures s'.runs[q].key != s'.runs[r].key
      {
        assert Live(s, r) && Live(s, e.run);
        assert q == e.run || Succeeded(s, q);
      }
    } else {
      assert forall q :: Succeeded(s', q) ==> Succeeded(s, q);
    }
  }

  lemma StepKeepsInv(s: State, e: Event)
    requires Inv(s) && Enabled(s, e)
    ensures Inv(Next(s, e))
  {
    StepKeepsMap(s, e);
    StepKeepsSuccess(s, e);
  }

  lemma {:induction false} TraceKeepsInv(trace: seq<State>, events: seq<Event>, k: nat)
    requires IsTrace(trace, events) && k < |trace|
    ensures Inv(trace[k])
  {
    if k > 0 {
      TraceKeepsInv(trace, events, k - 1);
      StepKeepsInv(trace[k - 1], events[k - 1]);
    }
  }

  /**
   At every point of every interleaving: one unfinished run per key at most, no two submissions for one
   key at a time, and of all runs of a key ever started at most one that submitted with success.
   */
  lemma OneRunPerKey(trace: seq<State>, events: seq<Event>, k: nat, r: int, q: int)
    requires IsTrace(trace, events) && k < |trace|
    requires 0 <= r < |trace[k].runs| && 0 <= q < |trace[k].runs| && trace[k].runs[r].key == trace[k].runs[q].key
    ensures Live(trace[k], r) && Live(trace[k], q) ==> r == q
    ensures trace[k].runs[r].phase.Submitting? && trace[k].runs[q].phase.Submitting? ==> r == q
    ensures Succeeded(trace[k], r) && Succeeded(trace[k], q) ==> r == q
  {
    TraceKeepsInv(trace, events, k);
    if Succeeded(trace[k], r) && Succeeded(trace[k], q) && r != q {
      OneSuccess(trace, events, k, r, q);
    }
  }

  /** Of two runs of a key that have succeeded, neither succeeded just now. */
  lemma SuccessesAreOld(s: State, e: Event, r: int, q: int)
    requires Inv(s) && Enabled(s, e) && r != q
    requires Succeeded(Next(s, e), r) && Succeeded(Next(s, e), q) && Next(s, e).runs[r].key == Next(s, e).runs[q].key
    ensures Succeeded(s, r) && Succeeded(s, q) && s.runs[r].key == s.runs[q].key
  {
  }

  lemma {:induction false} OneSuccess(trace: seq<State>, events: seq<Event>, k: nat, r: int, q: int)
    requires IsTrace(trace, events) && k < |trace|
    requires Succeeded(trace[k], r) && Succeeded(trace[k], q) && trace[k].runs[r].key == trace[k].runs[q].key
    ensures r == q
  {
    hide Next;
    hide Enabled;
    hide Inv;
    if k > 0 && r != q {
      TraceKeepsInv(trace, events, k - 1);
      SuccessesAreOld(trace[k - 1], events[k - 1], r, q);
      OneSuccess(trace, events, k - 1, r, q);
    }
  }

  /** A run removes its own map entry and no other, however it ended. */
  lemma CleanUpIsOwn(trace: seq<State>, events: seq<Event>, k: nat, r: nat)
    requires IsTrace(trace, events) && k < |events| && events[k] == CleanUp(r)
    ensures r < |trace[k].runs|
    ensures var key := trace[k].runs[r].key;
            key in trace[k].inflight && trace[k].inflight[key] == r
            && trace[k + 1].inflight == trace[k].inflight - {key}
  {
    TraceKeepsInv(trace, events, k);
    assert Live(trace[k], r);
  }

  function AnswerOf(run: Run): Answer
    requires run.phase.Settled? || run.phase.Removed?
  {
    run.phase.answer
  }

  /** Nothing that happens later changes which run a request joined, or the answer of a settled run. */
  lemma {:induction false} HistoryStands(trace: seq<State>, events: seq<Event>, i: nat, k: nat)
    requires IsTrace(trace, events) && i <= k < |trace|
    ensures trace[i].requests <= trace[k].requests
    ensures |trace[i].runs| <= |trace[k].runs|
    ensures forall r :: 0 <= r < |trace[i].runs| ==> trace[k].runs[r].key == trace[i].runs[r].key
    ensures forall r :: 0 <= r < |trace[i].runs|
                        && (trace[i].runs[r].phase.Settled? || trace[i].runs[r].phase.Removed?) ==>
              && (trace[k].runs[r].phase.Settled? || trace[k].runs[r].phase.Removed?)
              && AnswerOf(trace[k].runs[r]) == AnswerOf(trace[i].runs[r])
  {
    if k > i {
      HistoryStands(trace, events, i, k - 1);
    }
  }

  /**
   A request is answered by the run it joined: one for its own key, unfinished when it arrived, and the
   one in flight if there was one.
   */
  lemma RequestJoinsLiveRun(trace: seq<State>, events: seq<Event>, i: nat)
    requires IsTrace(trace, events) && i < |events| && events[i].Arrive?
    ensures var key := events[i].key;
            var r := trace[i + 1].requests[|trace[i].requests|];
            && Live(trace[i + 1], r)
            && trace[i + 1].runs[r].key == key
            && ((exists q :: Live(trace[i], q) && trace[i].runs[q].key == key) <==> Live(trace[i], r))
            && (Live(trace[i], r) ==> trace[i + 1].runs == trace[i].runs)
  {
    TraceKeepsInv(trace, events, i);
    TraceKeepsInv(trace, events, i + 1);
  }

  // ---- what a run answers -----------------------------------------------------------------

  predicate Done(s: State, r: int) {
    0 <= r < |s.runs| && (s.runs[r].phase.Settled? || s.runs[r].phase.Removed?)
  }

  /** Whoever is told that an account is authorized is told the truth, and it stays true of the chain. */
  ghost predicate AnswersAreTrue(s: State) {
    forall r :: Done(s, r) && (AnswerOf(s.runs[r]).Authorized? || AnswerOf(s.runs[r]).AlreadyAuthorized?) ==>
                  s.runs[r].key in s.ready
  }

  lemma StepKeepsTruth(s: State, e: Event)
    requires AnswersAreTrue(s) && Enabled(s, e)
    ensures AnswersAreTrue(Next(s, e)) && s.ready <= Next(s, e).ready
  {
    var s' := Next(s, e);
    forall r | Done(s', r) && (AnswerOf(s'.runs[r]).Authorized? || AnswerOf(s'.runs[r]).AlreadyAuthorized?)
      ensures s'.runs[r].key in s'.ready
    {
      assert Done(s, r) ==> AnswerOf(s.runs[r]) == AnswerOf(s'.runs[r]) && s.runs[r].key == s'.runs[r].key;
    }
  }

  lemma {:induction false} AnswersStayTrue(trace: seq<State>, events: seq<Event>, k: nat)
    requires IsTrace(trace, events) && k < |trace|
    ensures AnswersAreTrue(trace[k])
  {
    hide Next;
    hide Enabled;
    hide AnswersAreTrue;
    if k == 0 {
      NothingAnswered(trace[0]);
    } else {
      AnswersStayTrue(trace, events, k - 1);
      StepKeepsTruth(trace[k - 1], events[k - 1]);
    }
  }

  lemma NothingAnswered(s: State)
    requires s.runs == []
    ensures AnswersAreTrue(s)
  {
  }

  /** The event that gives a run this answer, and the state it must come in. */
  predicate Causes(s: State, e: Event, run: Run, r: nat)
    requires run.phase.Settled? || run.phase.Removed?
  {
    match e
    case Arrive(key, regulated) => !regulated && key == run.key && |s.runs| == r && AnswerOf(run).NotRegulated?
    case ReadDone(q, ok) =>
      q == r && if !ok then AnswerOf(run).Rejected?
                else run.key in s.ready && AnswerOf(run).AlreadyAuthorized?
    case SubmitDone(q, ok) => q == r && if ok then AnswerOf(run).Authorized? else AnswerOf(run).ChainError?
    case _ => false
  }

  lemma AnsweredNow(s: State, e: Event, r: nat)
    requires Enabled(s, e) && Done(Next(s, e), r)
    ensures Done(s, r) || Causes(s, e, Next(s, e).runs[r], r)
    ensures Done(s, r) ==>
              AnswerOf(s.runs[r]) == AnswerOf(Next(s, e).runs[r]) && s.runs[r].key == Next(s, e).runs[r].key
  {
  }

  /**
   Every answer has its cause: a failed read was answered as a rejection, a failed submission as the chain's
   error, a successful one as authorized, "already authorized" as a read of an authorized account.
   */
  lemma {:induction false} AnswerHasCause(trace: seq<State>, events: seq<Event>, k: nat, r: nat)
    requires IsTrace(trace, events) && k < |trace| && Done(trace[k], r)
    ensures exists i :: 0 <= i < k && Causes(trace[i], events[i], trace[k].runs[r], r)
  {
    hide Next;
    hide Enabled;
    hide Causes;
    if k > 0 {
      AnsweredNow(trace[k - 1], events[k - 1], r);
      if Done(trace[k - 1], r) {
        AnswerHasCause(trace, events, k - 1, r);
        var i :| 0 <= i < k - 1 && Causes(trace[i], events[i], trace[k - 1].runs[r], r);
        SameCause(trace[i], events[i], trace[k - 1].runs[r], trace[k].runs[r], r);
      }
    }
  }

  lemma SameCause(s: State, e: Event, run: Run, run': Run, r: nat)
    requires (run.phase.Settled? || run.phase.Removed?) && (run'.phase.Settled? || run'.phase.Removed?)
    requires run.key == run'.key && AnswerOf(run) == AnswerOf(run') && Causes(s, e, run, r)
    ensures Causes(s, e, run', r)
  {
  }

  /** And every such event answers its run at once, except that an account found unauthorized is submitted. */
  lemma EventsAnswer(s: State, e: Event)
    requires Enabled(s, e)
    ensures e.ReadDone? ==>
              if e.ok && s.runs[e.run].key !in s.ready then Next(s, e).runs[e.run].phase.Submitting?
              else Done(Next(s, e), e.run)
    ensures e.SubmitDone? ==> Done(Next(s, e), e.run)
    ensures e.SubmitDone? && e.ok ==> s.runs[e.run].key in Next(s, e).ready
    ensures e.Arrive? && e.key !in s.inflight ==>
              && |Next(s, e).runs| == |s.runs| + 1
              && if e.regulated then Next(s, e).runs[|s.runs|].phase.Viewing? else Done(Next(s, e), |s.runs|)
    ensures Next(s, e).ready == s.ready
            || (e.AuthorizedElsewhere? && Next(s, e).ready == s.ready + {e.key})
            || (e.SubmitDone? && e.ok && Next(s, e).ready == s.ready + {s.runs[e.run].key})
  {
  }
}
