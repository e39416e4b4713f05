/** What the agent replies, and what the audit table then holds. */
module AgentReplies {
  import opened Faults
  import opened Wrappers
  import opened VehicleProperties
  import opened SafetyPolicy
  import opened ToolRegistry
  import opened VehicleHal
  import opened AgentSystem
  import opened AgentGuarantees
  import opened AgentConflicts
  import opened AgentLostReplies
  import opened AgentEndings

  datatype Route = Rule | VehicleInfo | Model

  datatype Reply =
    | BlockedReply(code: string) | RetryReply | InfoReply(batterySoc: real, rangeKm: real)
    | DriverWarmed | PassengerWarmed | CompletedReply(n: nat) | HintReply(hint: string) | UnsureReply

  function FirstBlocked(outcomes: seq<Outcome>): Option<string> {
    if outcomes == [] then None
    else if outcomes[0].status.Blocked? then Some(outcomes[0].status.code)
    else FirstBlocked(outcomes[1..])
  }

  predicate AnyFailed(outcomes: seq<Outcome>) { exists i :: 0 <= i < |outcomes| && outcomes[i].status.Failed? }

  function ComposeResponse(outcomes: seq<Outcome>, vehicle: VehicleState, route: Route, hint: string): Reply {
    var blocked := FirstBlocked(outcomes);
    var successful := Successes(outcomes);
    if blocked.Some? then BlockedReply(blocked.value)
    else if AnyFailed(outcomes) then RetryReply
    else if route.VehicleInfo? then InfoReply(vehicle.batterySoc, vehicle.rangeKm)
    else if successful > 0 && hint == "driver_warm" then DriverWarmed
    else if successful > 0 && hint == "passenger_warm" then PassengerWarmed
    else if successful > 0 then CompletedReply(successful)
    else if hint != "" then HintReply(hint) else UnsureReply
  }

  lemma {:induction false} NoneBlocked(outcomes: seq<Outcome>)
    ensures FirstBlocked(outcomes).None? <==> forall i :: 0 <= i < |outcomes| ==> !outcomes[i].status.Blocked?
  {
    if outcomes != [] {
      NoneBlocked(outcomes[1..]);
      assert forall i :: 0 < i < |outcomes| ==> outcomes[i] == outcomes[1..][i - 1];
    }
  }

  predicate FirstBlockedAt(outcomes: seq<Outcome>, i: nat) {
    i < |outcomes| && outcomes[i].status.Blocked? && forall j :: 0 <= j < i ==> !outcomes[j].status.Blocked?
  }

  lemma {:induction false} FirstBlockedIs(outcomes: seq<Outcome>)
    ensures FirstBlocked(outcomes).Some? ==>
              exists i: nat :: FirstBlockedAt(outcomes, i) && outcomes[i].status.code == FirstBlocked(outcomes).value
  {
    if outcomes != [] {
      if outcomes[0].status.Blocked? {
        assert FirstBlockedAt(outcomes, 0);
      } else if FirstBlocked(outcomes).Some? {
        FirstBlockedIs(outcomes[1..]);
        var i: nat :| FirstBlockedAt(outcomes[1..], i) && outcomes[1..][i].status.code == FirstBlocked(outcomes).value;
        assert forall j :: 0 < j < i + 1 ==> outcomes[j] == outcomes[1..][j - 1];
        assert FirstBlockedAt(outcomes, i + 1);
      }
    }
  }

  /** The reply, from the outcomes: the code of the first blocked call if there is one; a request to try again if
      none is blocked but one failed; otherwise all is done, and the reply gives the charge and range of the row at
      hand, the warmed side, the number of calls, or, without a call, the planner's own words. */
  lemma ReplyIs(outcomes: seq<Outcome>, vehicle: VehicleState, route: Route, hint: string)
    ensures var reply := ComposeResponse(outcomes, vehicle, route, hint);
            && (reply.BlockedReply? <==> exists i :: 0 <= i < |outcomes| && outcomes[i].status.Blocked?)
            && (forall i: nat :: FirstBlockedAt(outcomes, i) ==> reply == BlockedReply(outcomes[i].status.code))
            && (reply.RetryReply? <==> (forall i :: 0 <= i < |outcomes| ==> !outcomes[i].status.Blocked?)
                                       && exists i :: 0 <= i < |outcomes| && outcomes[i].status.Failed?)
            && ((forall i :: 0 <= i < |outcomes| ==> outcomes[i].status.Done?) ==>
                  if route.VehicleInfo? then reply == InfoReply(vehicle.batterySoc, vehicle.rangeKm)
                  else if outcomes == [] then reply == if hint == "" then UnsureReply else HintReply(hint)
                  else if hint == "driver_warm" then reply.DriverWarmed?
                  else if hint == "passenger_warm" then reply.PassengerWarmed?
                  else reply == CompletedReply(|outcomes|))
  {
    NoneBlocked(outcomes);
    FirstBlockedIs(outcomes);
    hide FirstBlocked;
    if forall i :: 0 <= i < |outcomes| ==> outcomes[i].status.Done? {
      SuccessesCount(outcomes);
    }
  }

  lemma CompletionMeansDone(outcomes: seq<Outcome>, vehicle: VehicleState, route: Route, hint: string)
    requires ComposeResponse(outcomes, vehicle, route, hint).CompletedReply?
    ensures forall i :: 0 <= i < |outcomes| ==> outcomes[i].status.Done?
    ensures ComposeResponse(outcomes, vehicle, route, hint).n == Successes(outcomes)
  {
    NoneBlocked(outcomes);
  }

  /** A reply that reports completion is true: every command of the finished run is in the audit table,
      in order, at the versions right after the snapshot. */
  lemma CompletionIsTrue(w0: World, steps: seq<Step>, w: World, a: nat, route: Route, hint: string, i: nat)
    requires Reaches(w0, steps, w) && a in w.agents && w.agents[a].Executing?
    requires |w.agents[a].outcomes| == |w.agents[a].actions|
    requires ComposeResponse(w.agents[a].outcomes, w.agents[a].current, route, hint).CompletedReply?
    ensures var run := w.agents[a];
            && ComposeResponse(run.outcomes, run.current, route, hint).n == |run.commands|
            && (i < |run.commands| ==>
                  var at := run.snapshot.version + i;
                  && run.vehicle in w.db && at < |w.db[run.vehicle].audit|
                  && w.db[run.vehicle].audit[at].requestId == Agent(a)
                  && Records(w.db[run.vehicle].audit[at], run.commands[i]))
  {
    hide Anchored, Owned, Acknowledged, Doomed, CellInv, Run, SafetyGate, Successes;
    ReachesRun(w0, steps, w, a);
    var run := w.agents[a];
    CompletionMeansDone(run.outcomes, run.current, route, hint);
    SuccessesCount(run.outcomes);
    if i < |run.outcomes| {
      SuccessesCount(run.outcomes[..i + 1]);
      AcknowledgedCommit(w.db[run.vehicle], a, run, i);
    }
  }

  // ----- Replies that are not true -----

  /** The run has ended, the reply says "this operation was not executed", and some command of it was. */
  predicate FalselyBlocked(w: World, a: nat, route: Route, hint: string) {
    && Finished(w, a)
    && ComposeResponse(w.agents[a].outcomes, w.agents[a].current, route, hint).BlockedReply?
    && OwnRows(w.db[w.agents[a].vehicle].audit, a) > 0
  }

  /** The run has ended, the reply says "the operation could not be completed", and every command of it was. */
  predicate FalselyRetried(w: World, a: nat, route: Route, hint: string) {
    && Finished(w, a)
    && ComposeResponse(w.agents[a].outcomes, w.agents[a].current, route, hint).RetryReply?
    && OwnRows(w.db[w.agents[a].vehicle].audit, a) == |w.agents[a].commands|
  }

  /** The blocked reply against the run's own outcomes: no row of the run if and only if no call committed, told
      or untold. */
  lemma BlockedReplyIsTrueIff(w0: World, steps: seq<Step>, w: World, a: nat, route: Route, hint: string)
    requires Reaches(w0, steps, w) && a in w.agents && w.agents[a].Executing?
    requires ComposeResponse(w.agents[a].outcomes, w.agents[a].current, route, hint).BlockedReply?
    ensures w.agents[a].vehicle in w.db
    ensures (forall v | v in w.db :: OwnRows(w.db[v].audit, a) == 0)
            <==> (forall i :: 0 <= i < |w.agents[a].outcomes| ==> !w.agents[a].outcomes[i].status.Done?) && !LostCommit(w, a)
    ensures exists i :: 0 <= i < |w.agents[a].outcomes| && w.agents[a].outcomes[i].status.Blocked?
                        && i < |w.agents[a].commands|
                        && !RulesAllow(w.agents[a].commands[i], w.agents[a].snapshot, w.agents[a].observed)
  {
    hide Reaches, RunInv, OwnRows, LostCommit, RulesAllow, Successes;
    var run := w.agents[a];
    OwnRowsAreCounted(w0, steps, w, a);
    SuccessesCount(run.outcomes);
    NoneBlocked(run.outcomes);
    var i :| 0 <= i < |run.outcomes| && run.outcomes[i].status.Blocked?;
    OutcomesAlign(w0, steps, w, a, i);
  }

  /** The retry reply against the run's steps: it is true unless all calls but one succeeded and in some step a
      commit of the run took effect whose reply was lost. */
  lemma RetryReplyIsTrueIff(w0: World, steps: seq<Step>, w: World, a: nat, route: Route, hint: string)
    requires Reaches(w0, steps, w) && a in w.agents && w.agents[a].Executing?
    requires |w.agents[a].outcomes| == |w.agents[a].actions|
    requires ComposeResponse(w.agents[a].outcomes, w.agents[a].current, route, hint).RetryReply?
    ensures w.agents[a].vehicle in w.db
    ensures var run := w.agents[a];
            OwnRows(w.db[run.vehicle].audit, a) < |run.commands|
            <==> !(Successes(run.outcomes) == |run.commands| - 1
                   && SomeHides(w0, steps, a))
  {
    hide Reaches, RunInv, OwnRows, LostCommit, Successes, SomeHides;
    var run := w.agents[a];
    OwnRowsAreCounted(w0, steps, w, a);
    LostCommitIff(w0, steps, w, a);
    SuccessesCount(run.outcomes);
    assert AnyFailed(run.outcomes);
    OutcomesAlign(w0, steps, w, a, 0);
  }

  /** Outcomes and actions of a run agree on what was rejected. */
  lemma BlockedIsRejected(w0: World, steps: seq<Step>, w: World, a: nat, i: nat)
    requires Reaches(w0, steps, w) && a in w.agents && w.agents[a].Executing? && i < |w.agents[a].outcomes|
    ensures i < |w.agents[a].actions|
    ensures w.agents[a].outcomes[i].status.Blocked? <==> w.agents[a].actions[i].Rejected?
  {
    ReachesRun(w0, steps, w, a);
  }

  /** A row of the run needs an approved command. */
  lemma RowsNeedApproval(w0: World, steps: seq<Step>, w: World, a: nat)
    requires Reaches(w0, steps, w) && a in w.agents && w.agents[a].Executing? && w.agents[a].vehicle in w.db
    requires OwnRows(w.db[w.agents[a].vehicle].audit, a) > 0
    ensures exists i :: 0 <= i < |w.agents[a].actions| && w.agents[a].actions[i].Authorized?
  {
    hide Reaches, RunInv, OwnRows, LostCommit, Successes;
    var outcomes := w.agents[a].outcomes;
    OwnRowsAreCounted(w0, steps, w, a);
    SuccessesCount(outcomes);
    var i :| 0 <= i < |outcomes| && (outcomes[i].status.Done? || Unacknowledged(outcomes[i]));
    BlockedIsRejected(w0, steps, w, a, i);
    assert Unacknowledged(outcomes[i]) ==> outcomes[i].status.Failed?;
    assert w.agents[a].actions[i].Authorized?;
  }

  /** Just past the gate, exactly when the blocked reply can turn out false: some command was approved, some was
      rejected, and the snapshot is still the latest row. */
  lemma BlockedReplyCanBeFalseIff(w0: World, steps: seq<Step>, w: World, a: nat, route: Route, hint: string)
    requires Reaches(w0, steps, w) && a in w.agents && w.agents[a].Executing?
    requires w.agents[a].outcomes == [] && Agent(a) !in w.pending
    ensures Stored(w.db, w.agents[a].vehicle)
    ensures (exists more :: FalselyBlocked(Run(w, more), a, route, hint))
            <==> && (exists i :: 0 <= i < |w.agents[a].actions| && w.agents[a].actions[i].Authorized?)
                 && (exists i :: 0 <= i < |w.agents[a].actions| && w.agents[a].actions[i].Rejected?)
                 && Latest(w.db[w.agents[a].vehicle]).version == w.agents[a].snapshot.version
  {
    hide Reaches, Run, FalselyBlocked;
    PastTheGate(w0, steps, w, a);
    forall more | FalselyBlocked(Run(w, more), a, route, hint)
      ensures exists i :: 0 <= i < |w.agents[a].actions| && w.agents[a].actions[i].Authorized?
      ensures exists i :: 0 <= i < |w.agents[a].actions| && w.agents[a].actions[i].Rejected?
      ensures Latest(w.db[w.agents[a].vehicle]).version == w.agents[a].snapshot.version
    {
      FalselyBlockedNeeds(w0, steps, w, a, more, route, hint);
    }
    if && (exists i :: 0 <= i < |w.agents[a].actions| && w.agents[a].actions[i].Authorized?)
       && (exists i :: 0 <= i < |w.agents[a].actions| && w.agents[a].actions[i].Rejected?)
       && Latest(w.db[w.agents[a].vehicle]).version == w.agents[a].snapshot.version
    {
      var more := CommitOneAndEnd(w0, steps, w, a);
      ReachesOn(w0, steps, w, more);
      RejectedMeansBlocked(w0, steps + more, Run(w, more), a, route, hint);
      assert FalselyBlocked(Run(w, more), a, route, hint) by { IsFalselyBlocked(Run(w, more), a, route, hint); }
    }
  }

  lemma IsFalselyBlocked(w: World, a: nat, route: Route, hint: string)
    requires Finished(w, a) && OwnRows(w.db[w.agents[a].vehicle].audit, a) > 0
    requires ComposeResponse(w.agents[a].outcomes, w.agents[a].current, route, hint).BlockedReply?
    ensures FalselyBlocked(w, a, route, hint)
  {
  }

  lemma RejectedMeansBlocked(w0: World, steps: seq<Step>, w: World, a: nat, route: Route, hint: string)
    requires Reaches(w0, steps, w) && Finished(w, a)
    requires exists i :: 0 <= i < |w.agents[a].actions| && w.agents[a].actions[i].Rejected?
    ensures ComposeResponse(w.agents[a].outcomes, w.agents[a].current, route, hint).BlockedReply?
  {
    hide Reaches, Successes;
    var i :| 0 <= i < |w.agents[a].actions| && w.agents[a].actions[i].Rejected?;
    BlockedIsRejected(w0, steps, w, a, i);
    NoneBlocked(w.agents[a].outcomes);
  }

  lemma FalselyBlockedNeeds(w0: World, steps: seq<Step>, w: World, a: nat, more: seq<Step>, route: Route, hint: string)
    requires Reaches(w0, steps, w) && a in w.agents && w.agents[a].Executing? && w.agents[a].outcomes == []
    requires Stored(w.db, w.agents[a].vehicle) && FalselyBlocked(Run(w, more), a, route, hint)
    ensures exists i :: 0 <= i < |w.agents[a].actions| && w.agents[a].actions[i].Authorized?
    ensures exists i :: 0 <= i < |w.agents[a].actions| && w.agents[a].actions[i].Rejected?
    ensures Latest(w.db[w.agents[a].vehicle]).version == w.agents[a].snapshot.version
  {
    hide Reaches, Inv, OwnRows, Run, Successes;
    var w' := Run(w, more);
    ReachesInv(w0, steps, w);
    PlanStays(w, more, a);
    ReachesOn(w0, steps, w, more);
    RowsNeedApproval(w0, steps + more, w', a);
    NoneBlocked(w'.agents[a].outcomes);
    var i :| 0 <= i < |w'.agents[a].outcomes| && w'.agents[a].outcomes[i].status.Blocked?;
    BlockedIsRejected(w0, steps + more, w', a, i);
    assert w.agents[a].actions[i].Rejected?;
    PastTheGate(w0, steps, w, a);
    if Latest(w.db[w.agents[a].vehicle]).version != w.agents[a].snapshot.version { NoRowsBehind(w0, steps, w, a, more); }
  }

  /** Just past the gate, exactly when the retry reply can turn out false: there are commands, all were approved,
      and the snapshot is still the latest row. */
  lemma RetryReplyCanBeFalseIff(w0: World, steps: seq<Step>, w: World, a: nat, route: Route, hint: string)
    requires Reaches(w0, steps, w) && a in w.agents && w.agents[a].Executing?
    requires w.agents[a].outcomes == [] && Agent(a) !in w.pending
    ensures Stored(w.db, w.agents[a].vehicle)
    ensures (exists more :: FalselyRetried(Run(w, more), a, route, hint))
            <==> && w.agents[a].actions != []
                 && (forall i :: 0 <= i < |w.agents[a].actions| ==> w.agents[a].actions[i].Authorized?)
                 && Latest(w.db[w.agents[a].vehicle]).version == w.agents[a].snapshot.version
  {
    hide Reaches, Run, FalselyRetried;
    PastTheGate(w0, steps, w, a);
    forall more | FalselyRetried(Run(w, more), a, route, hint)
      ensures w.agents[a].actions != []
      ensures forall i :: 0 <= i < |w.agents[a].actions| ==> w.agents[a].actions[i].Authorized?
      ensures Latest(w.db[w.agents[a].vehicle]).version == w.agents[a].snapshot.version
    {
      FalselyRetriedNeeds(w0, steps, w, a, more, route, hint);
    }
    if && w.agents[a].actions != []
       && (forall i :: 0 <= i < |w.agents[a].actions| ==> w.agents[a].actions[i].Authorized?)
       && Latest(w.db[w.agents[a].vehicle]).version == w.agents[a].snapshot.version
    {
      var more := CommitAllUnheard(w0, steps, w, a);
      ReachesOn(w0, steps, w, more);
      UnheardMeansRetry(w0, steps + more, Run(w, more), a, route, hint);
    }
  }

  lemma UnheardMeansRetry(w0: World, steps: seq<Step>, w: World, a: nat, route: Route, hint: string)
    requires Reaches(w0, steps, w) && Finished(w, a) && LostCommit(w, a) && w.agents[a].actions != []
    requires AllDone(w.agents[a].outcomes[..|w.agents[a].actions| - 1])
    requires w.agents[a].outcomes[|w.agents[a].actions| - 1].status == Failed(Storage)
    ensures FalselyRetried(w, a, route, hint)
  {
    hide Reaches, LostCommit, OwnRows, Successes, FirstBlocked, AnyFailed, AllDone;
    OwnRowsAreCounted(w0, steps, w, a);
    LastFails(w.agents[a].outcomes);
    PastTheGate(w0, steps, w, a);
  }

  lemma LastFails(outcomes: seq<Outcome>)
    requires outcomes != [] && AllDone(outcomes[..|outcomes| - 1]) && outcomes[|outcomes| - 1].status == Failed(Storage)
    ensures Successes(outcomes) == |outcomes| - 1 && FirstBlocked(outcomes).None? && AnyFailed(outcomes)
  {
    hide FirstBlocked, Successes, AllDone;
    var n := |outcomes| - 1;
    AllDoneCount(outcomes[..n]);
    assert outcomes == outcomes[..n] + [outcomes[n]];
    PushCounts(outcomes[..n], outcomes[n]);
    assert outcomes[n].status.Failed?;
    DoneThenFailedIsNotBlocked(outcomes);
  }

  lemma AllDoneCount(outcomes: seq<Outcome>)
    requires AllDone(outcomes)
    ensures Successes(outcomes) == |outcomes|
  {
    SuccessesCount(outcomes);
  }

  lemma DoneThenFailedIsNotBlocked(outcomes: seq<Outcome>)
    requires outcomes != [] && AllDone(outcomes[..|outcomes| - 1]) && outcomes[|outcomes| - 1].status.Failed?
    ensures FirstBlocked(outcomes).None?
  {
    hide FirstBlocked;
    NoneBlocked(outcomes);
    forall i | 0 <= i < |outcomes| ensures !outcomes[i].status.Blocked? {
      if i < |outcomes| - 1 { assert outcomes[..|outcomes| - 1][i].status.Done?; }
    }
  }

  lemma FalselyRetriedNeeds(w0: World, steps: seq<Step>, w: World, a: nat, more: seq<Step>, route: Route, hint: string)
    requires Reaches(w0, steps, w) && a in w.agents && w.agents[a].Executing? && w.agents[a].outcomes == []
    requires Stored(w.db, w.agents[a].vehicle) && FalselyRetried(Run(w, more), a, route, hint)
    ensures w.agents[a].actions != []
    ensures forall i :: 0 <= i < |w.agents[a].actions| ==> w.agents[a].actions[i].Authorized?
    ensures Latest(w.db[w.agents[a].vehicle]).version == w.agents[a].snapshot.version
  {
    hide Reaches, Inv, OwnRows, Run, Successes;
    var w' := Run(w, more);
    ReachesInv(w0, steps, w);
    PlanStays(w, more, a);
    ReachesOn(w0, steps, w, more);
    NoneBlocked(w'.agents[a].outcomes);
    assert AnyFailed(w'.agents[a].outcomes);
    forall i | 0 <= i < |w'.agents[a].actions| ensures w'.agents[a].actions[i].Authorized? {
      BlockedIsRejected(w0, steps + more, w', a, i);
    }
    PastTheGate(w0, steps, w, a);
    if Latest(w.db[w.agents[a].vehicle]).version != w.agents[a].snapshot.version { NoRowsBehind(w0, steps, w, a, more); }
  }

  /** Two plans: a light, and a door. */
  const LIGHT_AND_DOOR := [SetLight("OFF"), SetDoorState(Driver, "OPEN")]

  lemma BothAreAccepted()
    ensures AcceptedCommands(LIGHT_AND_DOOR) == [ToCommand(LIGHT_AND_DOOR[0]), ToCommand(LIGHT_AND_DOOR[1])]
  {
    var plans := LIGHT_AND_DOOR;
    assert plans[..1] == [plans[0]] && [plans[0]][..0] == [];
    assert AcceptedCommands([plans[0]]) == AcceptedCommands([]) + [ToCommand(plans[0])];
  }

  /** A run of the two plans on a vehicle that is not in P: the light passes the gate, the door does not. */
  lemma LoadAndGate(w: World, v: nat, a: nat) returns (start: World)
    requires Stored(w.db, v) && a !in w.agents && Latest(w.db[v]).gear != Text("P")
    ensures start == Next(Next(w, AgentLoad(a, v, |w.db[v].history|)), AgentGate(a, LIGHT_AND_DOOR, None))
    ensures start.db == w.db && start.pending == w.pending && a in start.agents && start.agents[a].Executing?
    ensures var run := start.agents[a];
            && run.vehicle == v && run.current == Latest(w.db[v]) && run.outcomes == []
            && |run.actions| == |run.commands| == 2 && run.actions[0].Authorized? && run.actions[1].Rejected?
  {
    hide AcceptedCommands;
    BothAreAccepted();
    start := Next(Next(w, AgentLoad(a, v, |w.db[v].history|)), AgentGate(a, LIGHT_AND_DOOR, None));
  }

  lemma SecondIsBlocked(w: World, a: nat)
    requires a in w.agents && HasNext(w.agents[a]) && Agent(a) !in w.pending
    requires |w.agents[a].outcomes| == 1 && w.agents[a].outcomes[0].status.Done? && w.agents[a].actions[1].Rejected?
    ensures var w' := Next(w, AgentBegin(a, None));
            && a in w'.agents && w'.agents[a].Executing? && w'.agents[a].vehicle == w.agents[a].vehicle && w'.db == w.db
            && |w'.agents[a].outcomes| == 2 && w'.agents[a].outcomes[0].status.Done?
            && w'.agents[a].outcomes[1].status.Blocked?
  {
  }

  /** An instance of the first: on any vehicle that is not in P, a light is switched, a door is refused, and
      the reply says the operation was not executed. */
  lemma ABlockedRunMayHaveCommitted(w0: World, steps: seq<Step>, w: World, v: nat, a: nat, hint: string)
    returns (more: seq<Step>, done: World)
    requires Reaches(w0, steps, w) && Stored(w.db, v) && a !in w.agents && Latest(w.db[v]).gear != Text("P")
    ensures Reaches(w0, steps + more, done) && a in done.agents && done.agents[a].Executing? && v in done.db
    ensures ComposeResponse(done.agents[a].outcomes, done.agents[a].current, Model, hint).BlockedReply?
    ensures OwnRows(done.db[v].audit, a) >= 1
  {
    hide Inv, RunInv, CellInv, Successes, OwnRows, LostCommit, Reaches, Next;
    var load, gate := AgentLoad(a, v, |w.db[v].history|), AgentGate(a, LIGHT_AND_DOOR, None);
    NothingOpen(w0, steps, w, a);
    var start := LoadAndGate(w, v, a);
    var begin, commit := AgentBegin(a, Some(start.agents[a].current.version)), AgentCommit(a, NoFault);
    OneMoreStep(w0, steps, w, load);
    OneMoreStep(w0, steps + [load], Next(w, load), gate);
    NextCallCommitsIff(w0, steps + [load] + [gate], start, a);
    OneMoreStep(w0, steps + [load] + [gate], start, begin);
    OneMoreStep(w0, steps + [load] + [gate] + [begin], Next(start, begin), commit);
    var lit := Undisturbed(start, a);
    SecondIsBlocked(lit, a);
    done := Next(lit, AgentBegin(a, None));
    OneMoreStep(w0, steps + [load] + [gate] + [begin] + [commit], lit, AgentBegin(a, None));
    more := [load, gate, begin, commit, AgentBegin(a, None)];
    assert steps + more == steps + [load] + [gate] + [begin] + [commit] + [AgentBegin(a, None)];
    OwnRowsAreCounted(w0, steps + more, done, a);
    SuccessesCount(done.agents[a].outcomes);
    NoneBlocked(done.agents[a].outcomes);
  }

  /** A run of one light: it passes the gate whatever the row. */
  lemma LoadAndGateLight(w: World, v: nat, a: nat) returns (start: World)
    requires Stored(w.db, v) && a !in w.agents
    ensures start == Next(Next(w, AgentLoad(a, v, |w.db[v].history|)), AgentGate(a, [SetLight("OFF")], None))
    ensures start.db == w.db && start.pending == w.pending && a in start.agents && start.agents[a].Executing?
    ensures var run := start.agents[a];
            && run.vehicle == v && run.current == run.snapshot == Latest(w.db[v]) && run.outcomes == []
            && |run.actions| == |run.commands| == 1 && run.actions[0].Authorized?
  {
    var plans := [SetLight("OFF")];
    assert plans[..0] == [] && AcceptedCommands(plans) == AcceptedCommands([]) + [ToCommand(plans[0])];
    hide AcceptedCommands;
    start := Next(Next(w, AgentLoad(a, v, |w.db[v].history|)), AgentGate(a, plans, None));
  }

  /** An instance of the second: on any vehicle, a light is switched, the reply to its commit is lost, and the
      answer is that the operation could not be completed. */
  lemma ARetriedRunMayBeComplete(w0: World, steps: seq<Step>, w: World, v: nat, a: nat, hint: string)
    returns (more: seq<Step>, done: World)
    requires Reaches(w0, steps, w) && Stored(w.db, v) && a !in w.agents
    ensures Reaches(w0, steps + more, done) && FalselyRetried(done, a, Model, hint)
    ensures |done.agents[a].commands| == 1
  {
    hide Reaches, Next, Run, OwnRows, FalselyRetried, Successes;
    var load, gate := AgentLoad(a, v, |w.db[v].history|), AgentGate(a, [SetLight("OFF")], None);
    NothingOpen(w0, steps, w, a);
    var start := LoadAndGateLight(w, v, a);
    OneMoreStep(w0, steps, w, load);
    OneMoreStep(w0, steps + [load], Next(w, load), gate);
    var here := steps + [load] + [gate];
    var rest := CommitAllUnheard(w0, here, start, a);
    ReachesOn(w0, here, start, rest);
    done := Run(start, rest);
    UnheardMeansRetry(w0, here + rest, done, a, Model, hint);
    PastTheGate(w0, here + rest, done, a);
    more := [load, gate] + rest;
    assert steps + more == here + rest;
  }

  lemma NothingOpen(w0: World, steps: seq<Step>, w: World, a: nat)
    requires Reaches(w0, steps, w) && a !in w.agents
    ensures Agent(a) !in w.pending
  {
    hide Inv;
    ReachesInv(w0, steps, w);
    NoCallWithoutAgent(w, a);
  }

  lemma NoCallWithoutAgent(w: World, a: nat)
    requires Inv(w) && a !in w.agents
    ensures Agent(a) !in w.pending
  {
    CallOf(w, a);
  }
}
