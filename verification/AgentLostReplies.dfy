/** Commits a run is not told of: how many rows of the audit table are a run's, and when one more is than it knows. */
module AgentLostReplies {
  import opened Faults
  import opened Wrappers
  import opened VehicleHal
  import opened AgentSystem
  import opened AgentGuarantees
  import opened AgentConflicts

  /** How many audit rows are a run's. */
  function OwnRows(audit: seq<AuditRow>, a: nat): nat {
    if audit == [] then 0
    else OwnRows(audit[..|audit| - 1], a) + if audit[|audit| - 1].requestId == Agent(a) then 1 else 0
  }

  lemma {:induction false} OwnRowsSpan(audit: seq<AuditRow>, a: nat, from: nat, to: nat, n: nat)
    requires from <= to <= |audit| && n <= |audit|
    requires forall k :: 0 <= k < |audit| ==> (audit[k].requestId == Agent(a) <==> from <= k < to)
    ensures OwnRows(audit[..n], a) == if n <= from then 0 else if n <= to then n - from else to - from
  {
    if n > 0 {
      OwnRowsSpan(audit, a, from, to, n - 1);
      assert audit[..n][..n - 1] == audit[..n - 1];
    }
  }

  /** The commit a run was not told of took effect. */
  predicate LostCommit(w: World, a: nat) {
    && a in w.agents && w.agents[a].Executing? && w.agents[a].vehicle in w.db
    && var run := w.agents[a];
    var told := run.snapshot.version + Successes(run.outcomes);
    told < |w.db[run.vehicle].audit| && w.db[run.vehicle].audit[told].requestId == Agent(a)
  }

  /** A run's rows in the audit table: one for each call it was told of, and one more if its last storage
      failure hides a commit. */
  lemma OwnRowsAreCounted(w0: World, steps: seq<Step>, w: World, a: nat)
    requires Reaches(w0, steps, w) && a in w.agents && w.agents[a].Executing?
    ensures var run := w.agents[a];
            && run.vehicle in w.db
            && OwnRows(w.db[run.vehicle].audit, a) == Successes(run.outcomes) + (if LostCommit(w, a) then 1 else 0)
            && (LostCommit(w, a) ==> exists j :: 0 <= j < |run.outcomes| && Unacknowledged(run.outcomes[j]))
            && forall v | v in w.db && v != run.vehicle :: OwnRows(w.db[v].audit, a) == 0
  {
    hide Reaches, RunInv, Successes, Unacknowledged;
    ReachesRun(w0, steps, w, a);
    var run := w.agents[a];
    var audit := w.db[run.vehicle].audit;
    var told := run.snapshot.version + Successes(run.outcomes);
    ToldIsStored(w.db, a, run);
    forall k | 0 <= k < |audit|
      ensures audit[k].requestId == Agent(a) <==> run.snapshot.version <= k < told + (if LostCommit(w, a) then 1 else 0)
    {
      OwnCommits(w0, steps, w, a, run.vehicle, k);
    }
    assert audit[..|audit|] == audit;
    OwnRowsSpan(audit, a, run.snapshot.version, told + (if LostCommit(w, a) then 1 else 0), |audit|);
    if LostCommit(w, a) { OwnCommits(w0, steps, w, a, run.vehicle, told); }
    forall v | v in w.db && v != run.vehicle ensures OwnRows(w.db[v].audit, a) == 0 {
      forall k | 0 <= k < |w.db[v].audit| ensures w.db[v].audit[k].requestId != Agent(a) {
        OwnCommits(w0, steps, w, a, v, k);
      }
      assert w.db[v].audit[..|w.db[v].audit|] == w.db[v].audit;
      OwnRowsSpan(w.db[v].audit, a, 0, 0, |w.db[v].audit|);
    }
  }

  lemma ToldIsStored(db: Db, a: nat, run: AgentRun)
    requires RunInv(db, a, run) && run.Executing? && CellInv(run.vehicle, db[run.vehicle])
    ensures run.snapshot.version + Successes(run.outcomes) <= |db[run.vehicle].audit|
  {
  }

  // ----- When a commit is lost -----

  /** A commit of the run takes effect and its reply is lost. */
  predicate HidesCommit(w: World, a: nat, s: Step) {
    s.AgentCommit? && s.a == a && s.fault.LostAfter? && Next(w, s).db != w.db
  }

  /** What a commit does to the tables. */
  lemma CommitAppends(db: Db, t: Pending, fault: Fault)
    requires Stored(db, t.write.vehicle)
    ensures var (db', r) := CommitTransaction(db, t, fault);
            var v := t.write.vehicle;
            && Stored(db', v) && (forall u | u in db && u != v :: u in db' && db'[u] == db[u])
            && (db' == db ==> r.Failure?)
            && (db' != db <==> !fault.LostBefore? && Latest(db[v]).version == t.row.version)
            && (db' != db ==>
                  && |db'[v].audit| == |db[v].audit| + 1 && db'[v].audit[..|db[v].audit|] == db[v].audit
                  && db'[v].audit[|db[v].audit|].requestId == t.write.requestId
                  && (r.Success? <==> fault.NoFault?)
                  && (r.Failure? ==> r.error == Storage))
  {
    var db' := CommitTransaction(db, t, fault).0;
    if !fault.LostBefore? && Latest(db[t.write.vehicle]).version == t.row.version {
      assert db'[t.write.vehicle] != db[t.write.vehicle];
    }
  }

  /** Steps of other clients add no row of the run's. */
  lemma ForeignRows(w: World, s: Step, a: nat, v: nat)
    requires Inv(w) && Foreign(Agent(a), s) && v in w.db
    ensures v in Next(w, s).db
    ensures var audit, audit' := w.db[v].audit, Next(w, s).db[v].audit;
            audit' == audit
            || (|audit'| == |audit| + 1 && audit'[..|audit|] == audit && audit'[|audit|].requestId != Agent(a))
  {
    hide StoreInv, CallsInv, RunsInv, OpenInv, PendingInv, CommitTransaction, BeginTransaction, ServiceWrite, ExecutorWrite;
    match s
    case ManualCommit(id, fault) =>
      if Manual(id) in w.pending && Stored(w.db, w.pending[Manual(id)].write.vehicle) {
        OpenOf(w, Manual(id));
        CommitAppends(w.db, w.pending[Manual(id)], fault);
      }
    case AgentCommit(b, fault) =>
      if Agent(b) in w.pending && Stored(w.db, w.pending[Agent(b)].write.vehicle) {
        OpenOf(w, Agent(b));
        CommitAppends(w.db, w.pending[Agent(b)], fault);
      }
    case _ =>
  }

  lemma ForeignLosesNothing(w: World, s: Step, a: nat)
    requires Inv(w) && Foreign(Agent(a), s) && a in w.agents && w.agents[a].Executing?
    ensures LostCommit(Next(w, s), a) <==> LostCommit(w, a)
  {
    hide Inv, Next, RunInv, CellInv, Successes;
    ForeignKeepsClient(Agent(a), w, s);
    StoredRun(w, a);
    ToldIsStored(w.db, a, w.agents[a]);
    ForeignRows(w, s, a, w.agents[a].vehicle);
    var audit, audit' := w.db[w.agents[a].vehicle].audit, Next(w, s).db[w.agents[a].vehicle].audit;
    assert forall k :: 0 <= k < |audit| ==> audit'[..|audit|][k] == audit'[k];
  }

  lemma StoredRun(w: World, a: nat)
    requires Inv(w) && a in w.agents
    ensures RunInv(w.db, a, w.agents[a]) && Stored(w.db, w.agents[a].vehicle)
    ensures CellInv(w.agents[a].vehicle, w.db[w.agents[a].vehicle])
  {
    hide StoreInv, CallsInv, RunsInv, OpenInv, RunInv, CellInv;
    RunOf(w, a);
    StoredVehicle(w.db, w.agents[a], a);
    CellOf(w, w.agents[a].vehicle);
  }

  /** The row a run expects to write next is the first one past the audit table exactly while its own is the latest. */
  lemma NextIsPastTheEnd(db: Db, a: nat, run: AgentRun)
    requires RunInv(db, a, run) && run.Executing? && CellInv(run.vehicle, db[run.vehicle])
    ensures Stored(db, run.vehicle)
    ensures run.snapshot.version + Successes(run.outcomes) == run.current.version
    ensures Latest(db[run.vehicle]).version == |db[run.vehicle].audit|
  {
    AuditVersionsAreDense(run.vehicle, db[run.vehicle]);
  }

  lemma OwnCommitLoses(w: World, s: Step, a: nat)
    requires Inv(w) && s.AgentCommit? && s.a == a && a in w.agents && w.agents[a].Executing?
    ensures LostCommit(Next(w, s), a) <==> LostCommit(w, a) || HidesCommit(w, a, s)
  {
    hide StoreInv, CallsInv, RunsInv, OpenInv, RunInv, CellInv, PendingInv, CommitTransaction, ExecutorWrite, Successes;
    var run := w.agents[a];
    if HasNext(run) && Agent(a) in w.pending {
      var t := w.pending[Agent(a)];
      StoredRun(w, a);
      NextIsPastTheEnd(w.db, a, run);
      CallOf(w, a);
      OpenOf(w, Agent(a));
      AuthorizedIsSafe(w.db, a, run, t);
      CommitAppends(w.db, t, s.fault);
      var r := CommitTransaction(w.db, t, s.fault).1;
      CountNext(run, r);
    }
  }

  lemma CountNext(run: AgentRun, r: Result<Change, VehicleError>)
    requires HasNext(run)
    ensures Successes(FinishAction(run, r).outcomes) == Successes(run.outcomes) + if r.Success? then 1 else 0
  {
    var o := FinishAction(run, r).outcomes[|run.outcomes|];
    assert FinishAction(run, r).outcomes == run.outcomes + [o];
    PushCounts(run.outcomes, o);
  }

  lemma OwnOtherLoses(w: World, s: Step, a: nat)
    requires Inv(w) && !s.AgentCommit? && !Foreign(Agent(a), s) && a in w.agents && w.agents[a].Executing?
    ensures LostCommit(Next(w, s), a) <==> LostCommit(w, a)
  {
    hide StoreInv, CallsInv, RunsInv, OpenInv, RunInv, CellInv, PendingInv, BeginTransaction, ExecutorWrite, Successes;
    var run := w.agents[a];
    if s.AgentBegin? && HasNext(run) && Agent(a) !in w.pending {
      var run' := Next(w, s).agents[a];
      if run' != run { PushCounts(run.outcomes, run'.outcomes[|run.outcomes|]); }
    }
  }

  /** A run that is only starting has no row, so it has lost none. */
  lemma StartLosesNothing(w: World, s: Step, a: nat)
    requires Inv(w) && (a !in w.agents || !w.agents[a].Executing?)
    ensures !LostCommit(Next(w, s), a) && !HidesCommit(w, a, s)
  {
    hide CallsInv, RunsInv, OpenInv, RunInv, CellInv, CommitTransaction, BeginTransaction, ServiceWrite, ExecutorWrite,
         SafetyGate, AcceptedCommands, FinishAction, StoreInv, PendingInv, Successes;
    if s.AgentGate? && s.a == a && a in w.agents {
      StoredRun(w, a);
      CellOf(w, w.agents[a].vehicle);
    }
  }

  lemma StepLoses(w: World, s: Step, a: nat)
    requires Inv(w)
    ensures LostCommit(Next(w, s), a) <==> LostCommit(w, a) || HidesCommit(w, a, s)
  {
    hide Inv, Next, LostCommit;
    if a !in w.agents || !w.agents[a].Executing? {
      StartLosesNothing(w, s, a);
      NotRunning(w, a);
    } else if Foreign(Agent(a), s) {
      ForeignLosesNothing(w, s, a);
    } else if s.AgentCommit? {
      OwnCommitLoses(w, s, a);
    } else {
      OwnOtherLoses(w, s, a);
    }
  }

  lemma NotRunning(w: World, a: nat)
    requires a !in w.agents || !w.agents[a].Executing?
    ensures !LostCommit(w, a)
  {
  }

  /** Step k of a run of the system hides a commit. */
  predicate HidesAt(w0: World, steps: seq<Step>, a: nat, k: nat)
    requires k < |steps|
  {
    HidesCommit(Run(w0, steps[..k]), a, steps[k])
  }

  lemma HidesAtBefore(w0: World, steps: seq<Step>, a: nat, n: nat, k: nat)
    requires k < n <= |steps|
    ensures HidesAt(w0, steps[..n], a, k) <==> HidesAt(w0, steps, a, k)
  {
    hide HidesCommit, Run;
    assert steps[..n][..k] == steps[..k];
  }

  /** Some step hides a commit. */
  ghost predicate SomeHides(w0: World, steps: seq<Step>, a: nat) {
    exists k: nat :: k < |steps| && HidesAt(w0, steps, a, k)
  }

  lemma OneStepMoreHides(w0: World, steps: seq<Step>, a: nat)
    requires steps != []
    ensures var n := |steps| - 1;
            SomeHides(w0, steps, a) <==> SomeHides(w0, steps[..n], a) || HidesAt(w0, steps, a, n)
  {
    hide HidesAt;
    var n := |steps| - 1;
    forall k: nat | k < n ensures HidesAt(w0, steps[..n], a, k) <==> HidesAt(w0, steps, a, k) {
      HidesAtBefore(w0, steps, a, n, k);
    }
  }

  /** A run owns one row more than it was told of if and only if in some step a commit of it took effect and the
      reply was lost. */
  lemma {:induction false} LostCommitIff(w0: World, steps: seq<Step>, w: World, a: nat)
    requires Reaches(w0, steps, w)
    ensures LostCommit(w, a) <==> SomeHides(w0, steps, a)
  {
    hide LostCommit, HidesCommit, SomeHides, Inv, Next;
    if steps == [] {
      NothingLostYet(w0, w, a);
    } else {
      var n := |steps| - 1;
      LostCommitIff(w0, steps[..n], Run(w0, steps[..n]), a);
      ReachesInv(w0, steps[..n], Run(w0, steps[..n]));
      StepLoses(Run(w0, steps[..n]), steps[n], a);
      OneStepMoreHides(w0, steps, a);
    }
  }

  lemma NothingLostYet(w0: World, w: World, a: nat)
    requires Reaches(w0, [], w)
    ensures !LostCommit(w, a) && !SomeHides(w0, [], a)
  {
  }

  /** Begin on the run's own row, then a commit whose reply is lost. */
  function Unheard(w: World, a: nat): World
    requires Ready(w, a)
  {
    Next(Next(w, AgentBegin(a, Some(w.agents[a].current.version))), AgentCommit(a, LostAfter))
  }

  /** Such a commit can be lost at any approved call of a run whose row is the latest: the call counts as a storage
      failure, its row is in the audit table. */
  lemma ReplyCanBeLost(w0: World, steps: seq<Step>, w: World, a: nat)
    requires Reaches(w0, steps, w) && Ready(w, a)
    requires Stored(w.db, w.agents[a].vehicle)
    requires Latest(w.db[w.agents[a].vehicle]).version == w.agents[a].current.version
    ensures var w', n := Unheard(w, a), |w.agents[a].outcomes|;
            && LostCommit(w', a) && a in w'.agents && Agent(a) !in w'.pending
            && w'.agents[a] == w.agents[a].(outcomes := w'.agents[a].outcomes)
            && |w'.agents[a].outcomes| == n + 1
            && w'.agents[a].outcomes[..n] == w.agents[a].outcomes
            && Stored(w'.db, w.agents[a].vehicle)
            && w'.agents[a].outcomes[n].status == Failed(Storage)
  {
    hide RunInv, CellInv, PendingInv, CommitTransaction, ExecutorWrite, BeginTransaction, Successes;
    ReachesRun(w0, steps, w, a);
    var run := w.agents[a];
    OwnRowOpens(w.db, a, run);
    var write := ExecutorWrite(run, run.actions[|run.outcomes|].call, a).value;
    var t := BeginTransaction(w.db, write, Some(run.current.version)).value;
    OpensOn(w.db, t);
    IsTheRuns(run, a);
    CommitAppends(w.db, t, LostAfter);
    NextIsPastTheEnd(w.db, a, run);
    CountNext(run, CommitTransaction(w.db, t, LostAfter).1);
  }

  lemma OpensOn(db: Db, t: Pending)
    requires PendingInv(db, t)
    ensures Stored(db, t.write.vehicle) && t.row.version == t.write.expected
  {
  }

  lemma IsTheRuns(run: AgentRun, a: nat)
    requires HasNext(run) && run.actions[|run.outcomes|].Authorized?
    ensures var write := ExecutorWrite(run, run.actions[|run.outcomes|].call, a);
            write.Success? ==> write.value.requestId == Agent(a)
  {
  }
}
