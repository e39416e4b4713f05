/** How a run just past the gate can end. */
module AgentEndings {
  import opened Faults
  import opened Wrappers
  import opened VehicleHal
  import opened AgentSystem
  import opened AgentGuarantees
  import opened AgentConflicts
  import opened AgentLostReplies

  lemma ReachesOn(w0: World, steps: seq<Step>, w: World, more: seq<Step>)
    requires Reaches(w0, steps, w)
    ensures Reaches(w0, steps + more, Run(w, more))
  {
    RunInParts(w0, steps, more);
  }

  /** What a run set out to do. */
  predicate SamePlan(run: AgentRun, run': AgentRun) {
    && run.Executing? && run'.Executing?
    && run'.vehicle == run.vehicle && run'.snapshot == run.snapshot && run'.observed == run.observed
    && run'.commands == run.commands && run'.actions == run.actions
  }

  lemma {:induction false} PlanStays(w: World, more: seq<Step>, a: nat)
    requires Inv(w) && a in w.agents && w.agents[a].Executing?
    ensures var w' := Run(w, more); a in w'.agents && SamePlan(w.agents[a], w'.agents[a])
  {
    hide Inv, Next;
    if more != [] {
      var before, s := more[..|more| - 1], more[|more| - 1];
      PlanStays(w, before, a);
      RunKeepsInv(w, before);
      if Foreign(Agent(a), s) {
        ForeignKeepsClient(Agent(a), Run(w, before), s);
      } else {
        OwnStep(Run(w, before), s, a);
      }
    }
  }

  predicate Finished(w: World, a: nat) {
    && a in w.agents && w.agents[a].Executing? && w.agents[a].vehicle in w.db
    && |w.agents[a].outcomes| == |w.agents[a].actions|
  }

  /** An executing run that has no transaction open and whose row is the latest. */
  predicate InFront(w: World, a: nat) {
    && a in w.agents && w.agents[a].Executing? && Agent(a) !in w.pending && Stored(w.db, w.agents[a].vehicle)
    && Latest(w.db[w.agents[a].vehicle]).version == w.agents[a].current.version
  }

  lemma PastTheGate(w0: World, steps: seq<Step>, w: World, a: nat)
    requires Reaches(w0, steps, w) && a in w.agents && w.agents[a].Executing?
    ensures Stored(w.db, w.agents[a].vehicle)
    ensures |w.agents[a].outcomes| <= |w.agents[a].actions| == |w.agents[a].commands|
    ensures w.agents[a].outcomes == [] ==> w.agents[a].current == w.agents[a].snapshot
    ensures w.agents[a].current.version <= Latest(w.db[w.agents[a].vehicle]).version
  {
    ReachesRun(w0, steps, w, a);
    OwnRowIsNoNewer(w.db, a, w.agents[a]);
  }

  // ----- A run that has fallen behind -----

  lemma NothingDone()
    ensures Successes([]) == 0
  {
  }

  /** A run that is behind before it has committed anything never gets a row into the audit table. */
  lemma NoRowsBehind(w0: World, steps: seq<Step>, w: World, a: nat, more: seq<Step>)
    requires Reaches(w0, steps, w) && Behind(w, a) && w.agents[a].outcomes == []
    ensures var w' := Run(w, more);
            a in w'.agents && w'.agents[a].vehicle in w'.db && OwnRows(w'.db[w'.agents[a].vehicle].audit, a) == 0
  {
    hide Inv, RunInv, CellInv, OwnRows, Reaches, Successes, Run;
    var w' := Run(w, more);
    NothingDone();
    ReachesInv(w0, steps, w);
    BehindForGood(w, more, a);
    PlanStays(w, more, a);
    ReachesOn(w0, steps, w, more);
    OwnRowsAreCounted(w0, steps + more, w', a);
    PastTheGate(w0, steps, w, a);
    StoredRun(w, a);
    NextIsPastTheEnd(w.db, a, w.agents[a]);
    RunExtends(w, more);
    if LostCommit(w', a) {
      var at := w.agents[a].snapshot.version;
      assert w'.db[w.agents[a].vehicle].audit[at] == w.db[w.agents[a].vehicle].audit[at];
      OwnCommits(w0, steps, w, a, w.agents[a].vehicle, at);
    }
  }

  // ----- A run that is still in front -----

  /** A begin that finds the storage down adds one outcome, blocked or failed, and stores nothing. */
  lemma GiveUpOne(w: World, a: nat)
    requires a in w.agents && HasNext(w.agents[a]) && Agent(a) !in w.pending
    ensures var w' := Next(w, AgentBegin(a, None));
            && w'.db == w.db && w'.pending == w.pending && a in w'.agents
            && |w'.agents[a].outcomes| == |w.agents[a].outcomes| + 1
            && w'.agents[a] == w.agents[a].(outcomes := w'.agents[a].outcomes)
            && w'.agents[a].outcomes[..|w.agents[a].outcomes|] == w.agents[a].outcomes
  {
    hide ServiceWrite;
  }

  /** Storage stays down: the run ends and the tables stay as they are. */
  lemma {:induction false} GiveUp(w: World, a: nat) returns (more: seq<Step>)
    requires a in w.agents && w.agents[a].Executing? && Agent(a) !in w.pending
    requires |w.agents[a].outcomes| <= |w.agents[a].actions| == |w.agents[a].commands| && w.agents[a].vehicle in w.db
    ensures var w' := Run(w, more); w'.db == w.db && Finished(w', a) && SamePlan(w.agents[a], w'.agents[a])
    decreases |w.agents[a].actions| - |w.agents[a].outcomes|
  {
    hide Next;
    more := [];
    if |w.agents[a].outcomes| < |w.agents[a].actions| {
      GiveUpOne(w, a);
      var rest := GiveUp(Next(w, AgentBegin(a, None)), a);
      more := [AgentBegin(a, None)] + rest;
      RunInParts(w, [AgentBegin(a, None)], rest);
      RunOne(w, AgentBegin(a, None));
    }
  }

  /** A run in front with an approved call ahead can commit it and end. */
  lemma {:induction false} CommitOneAndEnd(w0: World, steps: seq<Step>, w: World, a: nat) returns (more: seq<Step>)
    requires Reaches(w0, steps, w) && InFront(w, a)
    requires exists i :: |w.agents[a].outcomes| <= i < |w.agents[a].actions| && w.agents[a].actions[i].Authorized?
    ensures var w' := Run(w, more);
            && Finished(w', a) && SamePlan(w.agents[a], w'.agents[a])
            && OwnRows(w'.db[w'.agents[a].vehicle].audit, a) > 0
    decreases |w.agents[a].actions| - |w.agents[a].outcomes|
  {
    hide Next, Reaches, OwnRows, Run, LostCommit, Successes;
    PastTheGate(w0, steps, w, a);
    var n := |w.agents[a].outcomes|;
    if w.agents[a].actions[n].Authorized? {
      var here := [AgentBegin(a, Some(w.agents[a].current.version)), AgentCommit(a, NoFault)];
      NextCallCommitsIff(w0, steps, w, a);
      UndisturbedIsARun(w, a);
      ReachesOn(w0, steps, w, here);
      OwnRowsAreCounted(w0, steps + here, Undisturbed(w, a), a);
      OneDoneCounts(Undisturbed(w, a).agents[a].outcomes, n);
      var rest := GiveUp(Undisturbed(w, a), a);
      more := here + rest;
      RunInParts(w, here, rest);
    } else {
      var begin := AgentBegin(a, None);
      GiveUpOne(w, a);
      OneMoreStep(w0, steps, w, begin);
      var rest := CommitOneAndEnd(w0, steps + [begin], Next(w, begin), a);
      more := [begin] + rest;
      RunInParts(w, [begin], rest);
      RunOne(w, begin);
    }
  }

  lemma OneDoneCounts(outcomes: seq<Outcome>, i: nat)
    requires i < |outcomes| && outcomes[i].status.Done?
    ensures Successes(outcomes) > 0
  {
    SuccessesCount(outcomes);
  }

  lemma {:induction false} SuccessesCount(outcomes: seq<Outcome>)
    ensures Successes(outcomes) == 0 <==> forall i :: 0 <= i < |outcomes| ==> !outcomes[i].status.Done?
    ensures Successes(outcomes) == |outcomes| <==> forall i :: 0 <= i < |outcomes| ==> outcomes[i].status.Done?
    ensures Successes(outcomes) <= |outcomes|
  {
    if outcomes != [] {
      SuccessesCount(outcomes[..|outcomes| - 1]);
      assert forall i :: 0 <= i < |outcomes| - 1 ==> outcomes[i] == outcomes[..|outcomes| - 1][i];
    }
  }

  predicate AllDone(outcomes: seq<Outcome>) { forall i :: 0 <= i < |outcomes| ==> outcomes[i].status.Done? }

  /** A run in front whose calls are all approved can commit every one of them and not hear of the last. */
  lemma {:induction false} CommitAllUnheard(w0: World, steps: seq<Step>, w: World, a: nat) returns (more: seq<Step>)
    requires Reaches(w0, steps, w) && InFront(w, a)
    requires |w.agents[a].outcomes| < |w.agents[a].actions| && AllDone(w.agents[a].outcomes)
    requires forall i :: 0 <= i < |w.agents[a].actions| ==> w.agents[a].actions[i].Authorized?
    ensures var w' := Run(w, more);
            && Finished(w', a) && SamePlan(w.agents[a], w'.agents[a]) && LostCommit(w', a)
            && AllDone(w'.agents[a].outcomes[..|w'.agents[a].actions| - 1])
            && w'.agents[a].outcomes[|w'.agents[a].actions| - 1].status == Failed(Storage)
    decreases |w.agents[a].actions| - |w.agents[a].outcomes|
  {
    hide Next, Reaches, Run, LostCommit;
    PastTheGate(w0, steps, w, a);
    var n := |w.agents[a].outcomes|;
    if n == |w.agents[a].actions| - 1 {
      ReplyCanBeLost(w0, steps, w, a);
      more := [AgentBegin(a, Some(w.agents[a].current.version)), AgentCommit(a, LostAfter)];
      UnheardIsARun(w, a);
    } else {
      var here := [AgentBegin(a, Some(w.agents[a].current.version)), AgentCommit(a, NoFault)];
      NextCallCommitsIff(w0, steps, w, a);
      UndisturbedIsARun(w, a);
      ReachesOn(w0, steps, w, here);
      var outcomes := Undisturbed(w, a).agents[a].outcomes;
      assert forall i :: 0 <= i < n ==> outcomes[i] == outcomes[..n][i];
      var rest := CommitAllUnheard(w0, steps + here, Undisturbed(w, a), a);
      more := here + rest;
      RunInParts(w, here, rest);
    }
  }

  lemma UnheardIsARun(w: World, a: nat)
    requires Ready(w, a)
    ensures Run(w, [AgentBegin(a, Some(w.agents[a].current.version)), AgentCommit(a, LostAfter)]) == Unheard(w, a)
  {
    var begin, commit := AgentBegin(a, Some(w.agents[a].current.version)), AgentCommit(a, LostAfter);
    assert [begin, commit] == [begin] + [commit];
    RunThenStep(w, [begin], commit);
    RunOne(w, begin);
  }
}
