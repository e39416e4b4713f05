/** Lost races: when a run's calls fail with version conflicts, and whether it can still commit. */
module AgentConflicts {
  import opened Faults
  import opened Wrappers
  import opened VehicleProperties
  import opened SafetyPolicy
  import opened ToolRegistry
  import opened VehicleHal
  import opened AgentSystem
  import opened AgentGuarantees

  /** Once a call of a run loses to a newer row, no later call of that run commits, whatever rows reads return. */
  lemma ALostRaceIsFinal(w0: World, steps: seq<Step>, w: World, a: nat, i: nat, j: nat)
    requires Reaches(w0, steps, w) && a in w.agents && w.agents[a].Executing?
    requires i < j < |w.agents[a].outcomes| && Overtaken(w.agents[a].outcomes[i])
    ensures !w.agents[a].outcomes[j].status.Done?
  {
    ReachesRun(w0, steps, w, a);
  }

  /** When every failure is a lost race, a run's commits are a prefix of its approved calls. */
  lemma LostRacesLeaveAPrefix(w0: World, steps: seq<Step>, w: World, a: nat, i: nat, j: nat)
    requires Reaches(w0, steps, w) && a in w.agents && w.agents[a].Executing?
    requires forall k :: 0 <= k < |w.agents[a].outcomes| && w.agents[a].outcomes[k].status.Failed? ==>
               Overtaken(w.agents[a].outcomes[k])
    requires i < j < |w.agents[a].outcomes| && w.agents[a].outcomes[j].status.Done?
    ensures i < |w.agents[a].actions|
    ensures w.agents[a].actions[i].Authorized? ==> w.agents[a].outcomes[i].status.Done?
  {
    ReachesRun(w0, steps, w, a);
  }

  // ----- Reads within one session -----

  /** The session of a run gives it its own row or a newer one: the row it loaded, then the row each of its
      commits returned, and after a failure whatever is stored. */
  predicate ReadsOn(w: World, a: nat, s: Step) {
    s.AgentBegin? && s.a == a && s.read.Some? && a in w.agents && w.agents[a].Executing? ==>
      s.read.value >= w.agents[a].current.version
  }

  predicate SessionReads(w: World, steps: seq<Step>, a: nat) {
    steps == []
    || (SessionReads(w, steps[..|steps| - 1], a)
        && ReadsOn(Run(w, steps[..|steps| - 1]), a, steps[|steps| - 1]))
  }

  lemma {:induction false} SessionInParts(w: World, first: seq<Step>, second: seq<Step>, a: nat)
    requires SessionReads(w, first, a) && SessionReads(Run(w, first), second, a)
    ensures SessionReads(w, first + second, a)
  {
    hide Run, ReadsOn;
    if second == [] {
      assert first + second == first;
    } else {
      assert (first + second)[..|first + second| - 1] == first + second[..|second| - 1];
      SessionInParts(w, first, second[..|second| - 1], a);
      RunInParts(w, first, second[..|second| - 1]);
    }
  }

  lemma {:induction false} OthersReadElsewhere(w: World, steps: seq<Step>, a: nat)
    requires forall i :: 0 <= i < |steps| ==> Foreign(Agent(a), steps[i])
    ensures SessionReads(w, steps, a)
  {
    if steps != [] {
      OthersReadElsewhere(w, steps[..|steps| - 1], a);
      assert Foreign(Agent(a), steps[|steps| - 1]);
    }
  }

  lemma OneRead(w: World, s: Step, a: nat)
    requires ReadsOn(w, a, s)
    ensures SessionReads(w, [s], a)
  {
    assert [s][..0] == [];
    assert Run(w, []) == w;
  }

  predicate Conflicted(o: Outcome) { o.status.Failed? && o.status.error.VersionConflict? }

  predicate ConflictsAreLost(w: World, a: nat) {
    a in w.agents && w.agents[a].Executing? ==>
      forall i :: 0 <= i < |w.agents[a].outcomes| && Conflicted(w.agents[a].outcomes[i]) ==>
        Overtaken(w.agents[a].outcomes[i])
  }

  /** A begin on the run's own row or a newer one fails with a version conflict only when overtaken. */
  lemma BeginLosesToNewer(db: Db, write: Write, read: Option<nat>)
    requires Stored(db, write.vehicle) ==> CellInv(write.vehicle, db[write.vehicle])
    requires Stored(db, write.vehicle) ==> 0 <= write.expected < |db[write.vehicle].history|
    requires read.Some? ==> read.value >= write.expected
    ensures var t := BeginTransaction(db, write, read);
            t.Failure? && t.error.VersionConflict? ==> t.error.current > t.error.expected
  {
    if read.Some? && Stored(db, write.vehicle) {
      var c := db[write.vehicle];
      assert RowOk(write.vehicle, c, if read.value < |c.history| then read.value else |c.history| - 1);
    }
  }

  lemma CommitLosesToNewer(db: Db, t: Pending, fault: Fault)
    requires PendingInv(db, t) && CellInv(t.write.vehicle, db[t.write.vehicle])
    ensures var r := CommitTransaction(db, t, fault).1;
            && (r.Failure? && r.error.VersionConflict? ==> r.error.current > r.error.expected)
            && (r.Success? ==> Latest(db[t.write.vehicle]).version == t.row.version)
  {
    var c := db[t.write.vehicle];
    assert RowOk(t.write.vehicle, c, |c.history| - 1);
  }

  /** What one of its own steps does to an executing run: nothing, one blocked or failed call, or one commit,
      and the last only while its row is the latest. */
  lemma OwnStep(w: World, s: Step, a: nat)
    requires Inv(w) && a in w.agents && w.agents[a].Executing? && !Foreign(Agent(a), s)
    ensures var w', run := Next(w, s), w.agents[a];
            && a in w'.agents && Stored(w.db, run.vehicle)
            && var run' := w'.agents[a];
            || run' == run
            || (exists o: Outcome ::
                  && !o.status.Done? && run' == run.(outcomes := run.outcomes + [o])
                  && (ReadsOn(w, a, s) && Conflicted(o) ==> Overtaken(o)))
            || (exists o: Outcome, row: VehicleState ::
                  && o.status.Done? && run' == run.(outcomes := run.outcomes + [o], current := row)
                  && Latest(w.db[run.vehicle]).version == run.current.version)
  {
    hide StoreInv, OpenInv, CallsInv, RunsInv, RunInv, PendingInv, CellInv, CommitTransaction;
    var run := w.agents[a];
    RunOf(w, a);
    StoredVehicle(w.db, run, a);
    CellOf(w, run.vehicle);
    if s.AgentBegin? && HasNext(run) && Agent(a) !in w.pending {
      OwnBegin(w, a, s.read);
    } else if s.AgentCommit? && HasNext(run) && Agent(a) in w.pending {
      CallOf(w, a);
      OpenOf(w, Agent(a));
      AuthorizedIsSafe(w.db, a, run, w.pending[Agent(a)]);
      OwnCommit(w, a, s.fault);
    }
  }

  lemma OwnBegin(w: World, a: nat, read: Option<nat>)
    requires a in w.agents && HasNext(w.agents[a]) && RunInv(w.db, a, w.agents[a])
    requires CellInv(w.agents[a].vehicle, w.db[w.agents[a].vehicle])
    ensures var run, w' := w.agents[a], BeginAction(w, a, w.agents[a], read);
            && a in w'.agents
            && (w'.agents[a] == run
                || exists o: Outcome ::
                     && !o.status.Done? && w'.agents[a] == run.(outcomes := run.outcomes + [o])
                     && (ReadsOn(w, a, AgentBegin(a, read)) && Conflicted(o) ==> Overtaken(o)))
  {
    hide ServiceWrite, BeginTransaction, CellInv;
    var run := w.agents[a];
    var n := |run.outcomes|;
    match run.actions[n]
    case Rejected(decision) =>
      var o := Outcome(run.commands[n], Blocked(decision.code));
      assert BeginAction(w, a, run, read).agents[a] == run.(outcomes := run.outcomes + [o]);
    case Authorized(call) =>
      var write := ExecutorWrite(run, call, a);
      var t := if write.Failure? then Failure(write.error) else BeginTransaction(w.db, write.value, read);
      if t.Failure? {
        var o := Outcome(call.command, Failed(t.error));
        assert BeginAction(w, a, run, read).agents[a] == run.(outcomes := run.outcomes + [o]);
        if write.Failure? {
          RefusedForOtherReasons(run, call, a);
        } else if read.Some? && read.value >= run.current.version {
          WritesOwnRow(run, call, a);
          BeginLosesToNewer(w.db, write.value, read);
        } else if read.None? {
          NothingRead(w.db, write.value);
        }
      }
  }

  lemma NothingRead(db: Db, write: Write)
    ensures BeginTransaction(db, write, None) == Failure(Storage)
  {
  }

  lemma WritesOwnRow(run: AgentRun, call: AuthorizedToolCall, a: nat)
    requires run.Executing? && ExecutorWrite(run, call, a).Success?
    ensures var write := ExecutorWrite(run, call, a).value;
            write.vehicle == run.vehicle && write.expected == run.current.version
  {
  }

  lemma OwnCommit(w: World, a: nat, fault: Fault)
    requires a in w.agents && HasNext(w.agents[a]) && Agent(a) in w.pending
    requires PendingInv(w.db, w.pending[Agent(a)])
    requires w.pending[Agent(a)].write.vehicle == w.agents[a].vehicle && w.pending[Agent(a)].row == w.agents[a].current
    requires CellInv(w.agents[a].vehicle, w.db[w.agents[a].vehicle])
    ensures var run, w' := w.agents[a], Next(w, AgentCommit(a, fault));
            && a in w'.agents && Stored(w.db, run.vehicle)
            && var run' := w'.agents[a];
            || (exists o: Outcome ::
                  !o.status.Done? && run' == run.(outcomes := run.outcomes + [o]) && (Conflicted(o) ==> Overtaken(o)))
            || (exists o: Outcome, row: VehicleState ::
                  && o.status.Done? && run' == run.(outcomes := run.outcomes + [o], current := row)
                  && Latest(w.db[run.vehicle]).version == run.current.version)
  {
    hide CommitTransaction, CellInv;
    var run, t := w.agents[a], w.pending[Agent(a)];
    var r := CommitTransaction(w.db, t, fault).1;
    CommitLosesToNewer(w.db, t, fault);
    var command := run.commands[|run.outcomes|];
    if r.Failure? {
      var o := Outcome(command, Failed(r.error));
      assert FinishAction(run, r) == run.(outcomes := run.outcomes + [o]);
    } else {
      var o := Outcome(command, Done(r.value.newValue, r.value.state.version));
      assert FinishAction(run, r) == run.(outcomes := run.outcomes + [o], current := r.value.state);
    }
  }

  lemma StepConflictsAreLost(w: World, s: Step, a: nat)
    requires Inv(w) && ConflictsAreLost(w, a) && ReadsOn(w, a, s)
    ensures ConflictsAreLost(Next(w, s), a)
  {
    hide Inv;
    if Foreign(Agent(a), s) {
      hide Next;
      ForeignKeepsClient(Agent(a), w, s);
      if a !in w.agents { ForeignStarts(w, s, a); }
    } else if a in w.agents && w.agents[a].Executing? {
      hide Next;
      OwnStep(w, s, a);
    }
  }

  lemma ForeignStarts(w: World, s: Step, a: nat)
    requires Foreign(Agent(a), s) && a !in w.agents
    ensures a !in Next(w, s).agents
  {
    hide BeginTransaction, CommitTransaction, ServiceWrite, ExecutorWrite, SafetyGate, AcceptedCommands, FinishAction;
  }

  /** While a run's reads stay within its session, each of its version conflicts is against a newer row. */
  lemma {:induction false} SessionConflictsAreLost(w0: World, steps: seq<Step>, w: World, a: nat)
    requires Reaches(w0, steps, w) && SessionReads(w0, steps, a)
    ensures ConflictsAreLost(w, a)
  {
    if steps != [] {
      var before := steps[..|steps| - 1];
      SessionConflictsAreLost(w0, before, Run(w0, before), a);
      ReachesInv(w0, before, Run(w0, before));
      StepConflictsAreLost(Run(w0, before), steps[|steps| - 1], a);
    }
  }

  /** One version conflict makes every later call of the run fail. */
  lemma AConflictIsFinal(w0: World, steps: seq<Step>, w: World, a: nat, i: nat, j: nat)
    requires Reaches(w0, steps, w) && SessionReads(w0, steps, a) && a in w.agents && w.agents[a].Executing?
    requires i < j < |w.agents[a].outcomes| && Conflicted(w.agents[a].outcomes[i])
    ensures !w.agents[a].outcomes[j].status.Done?
  {
    hide Inv, RunInv, SessionReads, Reaches;
    SessionConflictsAreLost(w0, steps, w, a);
    ALostRaceIsFinal(w0, steps, w, a, i, j);
  }

  /** When its failures are version conflicts, a run's commits are a prefix of its approved calls. */
  lemma CommitsAreAnApprovedPrefix(w0: World, steps: seq<Step>, w: World, a: nat, i: nat, j: nat)
    requires Reaches(w0, steps, w) && SessionReads(w0, steps, a) && a in w.agents && w.agents[a].Executing?
    requires forall k :: 0 <= k < |w.agents[a].outcomes| && w.agents[a].outcomes[k].status.Failed? ==>
               Conflicted(w.agents[a].outcomes[k])
    requires i < j < |w.agents[a].outcomes| && w.agents[a].outcomes[j].status.Done?
    ensures i < |w.agents[a].actions|
    ensures w.agents[a].actions[i].Authorized? ==> w.agents[a].outcomes[i].status.Done?
  {
    hide Inv, RunInv, SessionReads, Reaches;
    SessionConflictsAreLost(w0, steps, w, a);
    LostRacesLeaveAPrefix(w0, steps, w, a, i, j);
  }

  // ----- Whether a run can still commit -----

  /** The run's row is no longer the latest. */
  predicate Behind(w: World, a: nat) {
    && a in w.agents && w.agents[a].Executing? && Stored(w.db, w.agents[a].vehicle)
    && Latest(w.db[w.agents[a].vehicle]).version > w.agents[a].current.version
  }

  lemma BehindStays(w: World, s: Step, a: nat)
    requires Inv(w) && Behind(w, a)
    ensures Behind(Next(w, s), a)
    ensures Successes(Next(w, s).agents[a].outcomes) == Successes(w.agents[a].outcomes)
  {
    hide Inv, Next, CellInv;
    var run, w' := w.agents[a], Next(w, s);
    NextExtends(w, s);
    StepKeepsInv(w, s);
    LatestGrows(w, w', run.vehicle);
    if Foreign(Agent(a), s) {
      ForeignKeepsClient(Agent(a), w, s);
    } else {
      OwnStep(w, s, a);
      if w'.agents[a] != run { PushCounts(run.outcomes, w'.agents[a].outcomes[|run.outcomes|]); }
    }
  }

  lemma LatestGrows(w: World, w': World, v: nat)
    requires Inv(w) && Inv(w') && Extends(w.db, w'.db) && Stored(w.db, v)
    ensures Stored(w'.db, v) && Latest(w.db[v]).version <= Latest(w'.db[v]).version
  {
    hide RunsInv, CallsInv, OpenInv, StoreInv;
    CellOf(w, v);
    CellOf(w', v);
    assert RowOk(v, w.db[v], |w.db[v].history| - 1) && RowOk(v, w'.db[v], |w'.db[v].history| - 1);
  }

  lemma {:induction false} BehindForGood(w: World, more: seq<Step>, a: nat)
    requires Inv(w) && Behind(w, a)
    ensures Behind(Run(w, more), a)
    ensures Successes(Run(w, more).agents[a].outcomes) == Successes(w.agents[a].outcomes)
  {
    if more != [] {
      hide Inv, Behind;
      BehindForGood(w, more[..|more| - 1], a);
      RunKeepsInv(w, more[..|more| - 1]);
      BehindStays(Run(w, more[..|more| - 1]), more[|more| - 1], a);
    }
  }

  /** A run with an approved call ahead and no transaction open. */
  predicate Ready(w: World, a: nat) {
    && a in w.agents && HasNext(w.agents[a]) && Agent(a) !in w.pending
    && w.agents[a].actions[|w.agents[a].outcomes|].Authorized?
  }

  /** Begin on the run's own row, then commit, with no other step in between and no fault. */
  function Undisturbed(w: World, a: nat): World
    requires Ready(w, a)
  {
    Next(Next(w, AgentBegin(a, Some(w.agents[a].current.version))), AgentCommit(a, NoFault))
  }

  /** The call ahead opens a transaction on the run's own row; nothing else about it can fail. */
  lemma OwnRowOpens(db: Db, a: nat, run: AgentRun)
    requires RunInv(db, a, run) && HasNext(run) && CellInv(run.vehicle, db[run.vehicle])
    requires run.actions[|run.outcomes|].Authorized?
    ensures var write := ExecutorWrite(run, run.actions[|run.outcomes|].call, a);
            write.Success? && write.value.vehicle == run.vehicle && write.value.expected == run.current.version
            && var t := BeginTransaction(db, write.value, Some(run.current.version));
               t.Success? && PendingInv(db, t.value) && t.value.write == write.value
  {
    var c := db[run.vehicle];
    var call := run.actions[|run.outcomes|].call;
    var command := run.commands[|run.outcomes|];
    assert run.actions[|run.outcomes|] == Authorize(command, run.snapshot, run.observed);
    AcceptedMeansWritten(command);
    assert RowOk(run.vehicle, c, run.current.version);
    BeginRefines(db, run.vehicle, command.property, command.zone, command.value, run.current.version, Agent(a),
                 run.current.version);
  }

  lemma CommitsIfLatest(db: Db, t: Pending)
    requires PendingInv(db, t) && CellInv(t.write.vehicle, db[t.write.vehicle])
    ensures CommitTransaction(db, t, NoFault).1.Success? <==> Latest(db[t.write.vehicle]).version == t.write.expected
    ensures Stored(CommitTransaction(db, t, NoFault).0, t.write.vehicle)
    ensures CommitTransaction(db, t, NoFault).1.Success? ==>
              Latest(CommitTransaction(db, t, NoFault).0[t.write.vehicle]) == CommitTransaction(db, t, NoFault).1.value.state
  {
    CommitRefines(db, t, NoFault);
  }

  /** An approved call that reads the run's own row and is not disturbed commits if and only if no other
      writer has committed since that row. */
  lemma NextCallCommitsIff(w0: World, steps: seq<Step>, w: World, a: nat)
    requires Reaches(w0, steps, w) && Ready(w, a)
    ensures var n, run := |w.agents[a].outcomes|, Undisturbed(w, a).agents[a];
            && a in Undisturbed(w, a).agents && run.Executing? && |run.outcomes| == n + 1
            && run == w.agents[a].(outcomes := run.outcomes, current := run.current)
            && run.outcomes[..n] == w.agents[a].outcomes
            && Agent(a) !in Undisturbed(w, a).pending
            && Stored(Undisturbed(w, a).db, run.vehicle)
            && (run.outcomes[n].status.Done? ==> Latest(Undisturbed(w, a).db[run.vehicle]) == run.current)
            && w.agents[a].vehicle in w.db && w.db[w.agents[a].vehicle].history != []
            && (run.outcomes[n].status.Done?
                <==> Latest(w.db[w.agents[a].vehicle]).version == w.agents[a].current.version)
  {
    hide RunInv, CellInv, PendingInv, CommitTransaction, ExecutorWrite, BeginTransaction;
    ReachesRun(w0, steps, w, a);
    var run := w.agents[a];
    OwnRowOpens(w.db, a, run);
    var t := BeginTransaction(w.db, ExecutorWrite(run, run.actions[|run.outcomes|].call, a).value,
                              Some(run.current.version)).value;
    CommitsIfLatest(w.db, t);
  }

  /** Some continuation, of any steps of any clients, in which the run commits another call. */
  ghost predicate CanStillCommit(w: World, a: nat) {
    a in w.agents && w.agents[a].Executing?
    && exists more :: a in Run(w, more).agents && Run(w, more).agents[a].Executing?
                      && Successes(Run(w, more).agents[a].outcomes) > Successes(w.agents[a].outcomes)
  }

  /** Exactly when a run has lost: no continuation commits another of its calls if and only if some other
      writer has committed since the run's own row. */
  lemma CanStillCommitIff(w0: World, steps: seq<Step>, w: World, a: nat)
    requires Reaches(w0, steps, w) && Ready(w, a)
    ensures Stored(w.db, w.agents[a].vehicle)
    ensures CanStillCommit(w, a) <==> Latest(w.db[w.agents[a].vehicle]).version == w.agents[a].current.version
  {
    hide Inv, RunInv, CellInv, Next, Run, Successes;
    ReachesInv(w0, steps, w);
    ReachesRun(w0, steps, w, a);
    OwnRowIsNoNewer(w.db, a, w.agents[a]);
    if Latest(w.db[w.agents[a].vehicle]).version == w.agents[a].current.version {
      NextCallCommitsIff(w0, steps, w, a);
      UndisturbedIsARun(w, a);
      NextOutcomeCounts(w, a);
      var more := [AgentBegin(a, Some(w.agents[a].current.version)), AgentCommit(a, NoFault)];
      assert Run(w, more) == Undisturbed(w, a);
    } else {
      forall more | a in Run(w, more).agents && Run(w, more).agents[a].Executing?
        ensures Successes(Run(w, more).agents[a].outcomes) == Successes(w.agents[a].outcomes)
      {
        BehindForGood(w, more, a);
      }
    }
  }

  lemma OwnRowIsNoNewer(db: Db, a: nat, run: AgentRun)
    requires RunInv(db, a, run) && run.Executing? && CellInv(run.vehicle, db[run.vehicle])
    ensures Stored(db, run.vehicle) && run.current.version <= Latest(db[run.vehicle]).version
  {
    assert RowOk(run.vehicle, db[run.vehicle], |db[run.vehicle].history| - 1);
  }

  lemma UndisturbedIsARun(w: World, a: nat)
    requires Ready(w, a)
    ensures Run(w, [AgentBegin(a, Some(w.agents[a].current.version)), AgentCommit(a, NoFault)]) == Undisturbed(w, a)
  {
    var begin, commit := AgentBegin(a, Some(w.agents[a].current.version)), AgentCommit(a, NoFault);
    assert [begin, commit] == [begin] + [commit];
    RunThenStep(w, [begin], commit);
    RunOne(w, begin);
  }

  lemma NextOutcomeCounts(w: World, a: nat)
    requires Ready(w, a) && a in Undisturbed(w, a).agents && Undisturbed(w, a).agents[a].Executing?
    requires |Undisturbed(w, a).agents[a].outcomes| == |w.agents[a].outcomes| + 1
    requires Undisturbed(w, a).agents[a].outcomes[|w.agents[a].outcomes|].status.Done?
    ensures Successes(Undisturbed(w, a).agents[a].outcomes) > Successes(w.agents[a].outcomes)
  {
    hide CommitTransaction, BeginTransaction, ExecutorWrite;
    var outcomes, o := w.agents[a].outcomes, Undisturbed(w, a).agents[a].outcomes[|w.agents[a].outcomes|];
    assert Undisturbed(w, a).agents[a].outcomes == outcomes + [o];
    PushCounts(outcomes, o);
  }

  /** The read assumption matters: were a read to return a row older than the run's own, the call would fail
      with a conflict against that older row, and the run's next approved call could still commit. */
  lemma AStaleReadIsNotFinal(w0: World, steps: seq<Step>, w: World, a: nat, older: nat)
    requires Reaches(w0, steps, w) && Ready(w, a) && older < w.agents[a].current.version
    requires |w.agents[a].outcomes| + 1 < |w.agents[a].actions|
    requires w.agents[a].actions[|w.agents[a].outcomes| + 1].Authorized?
    requires Stored(w.db, w.agents[a].vehicle)
    requires Latest(w.db[w.agents[a].vehicle]).version == w.agents[a].current.version
    ensures var n, stale := |w.agents[a].outcomes|, Next(w, AgentBegin(a, Some(older)));
            && Ready(stale, a)
            && stale.agents[a].outcomes[n].status == Failed(VersionConflict(w.agents[a].current.version, older))
            && a in Undisturbed(stale, a).agents && Undisturbed(stale, a).agents[a].Executing?
            && |Undisturbed(stale, a).agents[a].outcomes| == n + 2
            && Undisturbed(stale, a).agents[a].outcomes[n + 1].status.Done?
  {
    hide RunInv, CellInv, PendingInv, CommitTransaction, ExecutorWrite, Inv;
    ReachesRun(w0, steps, w, a);
    var run := w.agents[a];
    var stale := Next(w, AgentBegin(a, Some(older)));
    OwnRowOpens(w.db, a, run);
    OlderRow(w.db[run.vehicle], run.vehicle, a, run, w.db, older);
    OneMoreStep(w0, steps, w, AgentBegin(a, Some(older)));
    NextCallCommitsIff(w0, steps + [AgentBegin(a, Some(older))], stale, a);
  }

  lemma OlderRow(c: Cell, v: nat, a: nat, run: AgentRun, db: Db, older: nat)
    requires RunInv(db, a, run) && run.Executing? && older < run.current.version && v == run.vehicle && db[v] == c
    requires CellInv(v, c)
    ensures RowAt(c, older).version == older
  {
    assert RowOk(v, c, older);
  }
}
