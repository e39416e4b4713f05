/**
 The circuit breaker. Its gate and its bookkeeping run under a lock, the guarded operation does not, so
 completions interleave freely with new calls. A cancelled operation is neither a success nor a failure.
 */
module Resilience {
  import opened Wrappers

  datatype State = Closed | HalfOpen | Open

  datatype Breaker = Breaker(failures: nat, openedAt: Option<real>)

  datatype Policy = Policy(threshold: int, recovery: real)

  function StateAt(p: Policy, b: Breaker, now: real): State {
    if b.openedAt.None? then Closed
    else if now - b.openedAt.value >= p.recovery then HalfOpen else Open
  }

  function OnFailure(p: Policy, b: Breaker, now: real): Breaker {
    Breaker(b.failures + 1, if b.failures + 1 >= p.threshold then Some(now) else b.openedAt)
  }

  function OnSuccess(b: Breaker): Breaker { Breaker(0, None) }

  datatype Outcome = Returned | Raised | Cancelled

  class CircuitBreaker {
    const policy: Policy
    var failures: nat
    var openedAt: Option<real>

    constructor (policy: Policy)
      ensures this.policy == policy && View() == Breaker(0, None)
    {
      this.policy := policy;
      failures, openedAt := 0, None;
    }

    function View(): Breaker
      reads this
    {
      Breaker(failures, openedAt)
    }

    /** The locked gate at the start of a call. */
    method Gate(now: real) returns (admitted: bool)
      ensures admitted <==> StateAt(policy, View(), now) != Open
    {
      if openedAt.None? { return true; }
      return now - openedAt.value >= policy.recovery;
    }

    /** The locked bookkeeping at the end of a call. */
    method Complete(outcome: Outcome, now: real)
      modifies this
      ensures View() == match outcome
                        case Returned => OnSuccess(old(View()))
                        case Raised => OnFailure(policy, old(View()), now)
                        case Cancelled => old(View())
    {
      match outcome
      case Returned =>
        failures := 0;
        openedAt := None;
      case Raised =>
        failures := failures + 1;
        if failures >= policy.threshold { openedAt := Some(now); }
      case Cancelled =>
    }
  }

  // ----- Interleaved calls -----

  datatype Event = Begin(call: nat, at: real) | End(call: nat, at: real, outcome: Outcome)

  /** The breaker, the calls in flight, and the completions so far. */
  datatype World = World(breaker: Breaker, inFlight: set<nat>, log: seq<Event>)

  const START := World(Breaker(0, None), {}, [])

  predicate Admits(p: Policy, w: World, e: Event) {
    e.Begin? && e.call !in w.inFlight && StateAt(p, w.breaker, e.at) != Open
  }

  /** An end that completes a call in flight with a verdict on the provider. */
  predicate Counts(w: World, e: Event) {
    e.End? && e.call in w.inFlight && !e.outcome.Cancelled?
  }

  function Next(p: Policy, w: World, e: Event): World {
    match e
    case Begin(call, at) => if Admits(p, w, e) then w.(inFlight := w.inFlight + {call}) else w
    case End(call, at, outcome) =>
      if call !in w.inFlight then w else
      World(match outcome
            case Returned => OnSuccess(w.breaker)
            case Raised => OnFailure(p, w.breaker, at)
            case Cancelled => w.breaker,
            w.inFlight - {call},
            if outcome.Cancelled? then w.log else w.log + [e])
  }

  function Run(p: Policy, events: seq<Event>): World {
    if events == [] then START else Next(p, Run(p, events[..|events| - 1]), events[|events| - 1])
  }

  /** How many of the latest completions in a row are failures. */
  function TrailingFailures(log: seq<Event>): nat {
    if log == [] || !log[|log| - 1].End? || !log[|log| - 1].outcome.Raised? then 0
    else 1 + TrailingFailures(log[..|log| - 1])
  }

  predicate Tripped(p: Policy, log: seq<Event>) {
    TrailingFailures(log) > 0 && TrailingFailures(log) >= p.threshold
  }

  /** The breaker's state is a function of the completion log: the count is the trailing run of failures, and
      it is open exactly while that run reaches the threshold, since the last of them. */
  predicate Follows(p: Policy, w: World) {
    && w.breaker.failures == TrailingFailures(w.log)
    && (w.breaker.openedAt.Some? <==> Tripped(p, w.log))
    && (Tripped(p, w.log) ==> w.breaker.openedAt == Some(w.log[|w.log| - 1].at))
  }

  lemma {:induction false} StateFollowsLog(p: Policy, events: seq<Event>)
    ensures Follows(p, Run(p, events))
  {
    if events != [] {
      hide StateAt;
      var n := |events| - 1;
      StateFollowsLog(p, events[..n]);
      EndFollowsLog(p, Run(p, events[..n]), events[n]);
    }
  }

  lemma EndFollowsLog(p: Policy, w: World, e: Event)
    requires Follows(p, w)
    ensures Follows(p, Next(p, w, e))
  {
    hide TrailingFailures, StateAt;
    OneMoreCompletion(w.log, e);
  }

  lemma OneMoreCompletion(log: seq<Event>, e: Event)
    ensures TrailingFailures(log + [e]) == if e.End? && e.outcome.Raised? then 1 + TrailingFailures(log) else 0
  {
    assert (log + [e])[..|log|] == log;
  }

  /** Which calls the breaker lets start, from the log alone. Once the recovery time has passed every call
      is let through, not just one probe. */
  lemma AdmittedIff(p: Policy, events: seq<Event>, e: Event)
    requires e.Begin? && e.call !in Run(p, events).inFlight
    ensures var log := Run(p, events).log;
            Admits(p, Run(p, events), e) <==> !Tripped(p, log) || e.at - log[|log| - 1].at >= p.recovery
  {
    StateFollowsLog(p, events);
  }

  /** The state shown, from the log alone. */
  lemma StateIs(p: Policy, events: seq<Event>, now: real)
    ensures var w := Run(p, events);
            var state := StateAt(p, w.breaker, now);
            && (state.Closed? <==> !Tripped(p, w.log))
            && (state.HalfOpen? <==> Tripped(p, w.log) && now - w.log[|w.log| - 1].at >= p.recovery)
            && (state.Open? <==> Tripped(p, w.log) && now - w.log[|w.log| - 1].at < p.recovery)
  {
    StateFollowsLog(p, events);
  }

  predicate Timed(events: seq<Event>) {
    forall i, j :: 0 <= i < j < |events| ==> events[i].at <= events[j].at
  }

  lemma RunOneMore(p: Policy, events: seq<Event>, j: nat)
    requires 0 < j <= |events|
    ensures Run(p, events[..j]) == Next(p, Run(p, events[..j - 1]), events[j - 1])
  {
    assert events[..j][..j - 1] == events[..j - 1];
  }

  /** While no success completes, a breaker that was open stays open, since no earlier time. */
  lemma {:induction false} StaysOpen(p: Policy, events: seq<Event>, i: nat, j: nat)
    requires i < j <= |events| && Timed(events)
    requires Run(p, events[..i + 1]).breaker.openedAt == Some(events[i].at)
    requires forall k :: i < k < j ==> !(Counts(Run(p, events[..k]), events[k]) && events[k].outcome.Returned?)
    ensures var b := Run(p, events[..j]).breaker;
            b.openedAt.Some? && events[i].at <= b.openedAt.value
  {
    hide Run, Next, Counts;
    if j > i + 1 {
      StaysOpen(p, events, i, j - 1);
      RunOneMore(p, events, j);
      OnlySuccessCloses(p, Run(p, events[..j - 1]), events[j - 1]);
    }
  }

  lemma OnlySuccessCloses(p: Policy, w: World, e: Event)
    requires w.breaker.openedAt.Some? && !(Counts(w, e) && e.outcome.Returned?)
    ensures var opened' := Next(p, w, e).breaker.openedAt;
            opened' == w.breaker.openedAt || opened' == Some(e.at)
  {
  }

  /** No call begins within the recovery time of a failure that tripped the breaker, unless a call that was
      still in flight succeeded in between. */
  lemma NoEarlyCall(p: Policy, events: seq<Event>, i: nat, j: nat)
    requires i < j < |events| && Timed(events)
    requires Counts(Run(p, events[..i]), events[i]) && events[i].outcome.Raised?
    requires TrailingFailures(Run(p, events[..i]).log) + 1 >= p.threshold
    requires Admits(p, Run(p, events[..j]), events[j]) && events[j].at - events[i].at < p.recovery
    ensures exists k :: i < k < j && Counts(Run(p, events[..k]), events[k]) && events[k].outcome.Returned?
  {
    StateFollowsLog(p, events[..i]);
    assert events[..i + 1][..i] == events[..i];
    assert Run(p, events[..i + 1]).breaker.openedAt == Some(events[i].at);
    if forall k :: i < k < j ==> !(Counts(Run(p, events[..k]), events[k]) && events[k].outcome.Returned?) {
      StaysOpen(p, events, i, j);
    }
  }
}
