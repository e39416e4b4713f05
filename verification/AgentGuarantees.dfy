/** What holds in every run of the system, whatever the interleaving, faults and stale reads. */
module AgentGuarantees {
  import opened Wrappers
  import opened VehicleProperties
  import opened SafetyPolicy
  import opened VehicleHal
  import opened AgentSystem

  lemma NextExtends(w: World, s: Step)
    ensures Extends(w.db, Next(w, s).db) && Next(w, s).db.Keys == w.db.Keys
  {
    hide BeginTransaction, ServiceWrite, ExecutorWrite, SafetyGate, AcceptedCommands, FinishAction;
  }

  lemma {:induction false} RunExtends(w: World, steps: seq<Step>)
    ensures Extends(w.db, Run(w, steps).db) && Run(w, steps).db.Keys == w.db.Keys
  {
    if steps != [] {
      RunExtends(w, steps[..|steps| - 1]);
      NextExtends(Run(w, steps[..|steps| - 1]), steps[|steps| - 1]);
    }
  }

  /** `w` is where some run from freshly created vehicles has got to. */
  ghost predicate Reaches(w0: World, steps: seq<Step>, w: World) {
    Initial(w0) && w == Run(w0, steps)
  }

  lemma ReachesInv(w0: World, steps: seq<Step>, w: World)
    requires Reaches(w0, steps, w)
    ensures Inv(w)
  {
    InitialInv(w0);
    RunKeepsInv(w0, steps);
  }

  lemma OneMoreStep(w0: World, steps: seq<Step>, w: World, s: Step)
    requires Reaches(w0, steps, w)
    ensures Reaches(w0, steps + [s], Next(w, s))
  {
    assert (steps + [s])[..|steps|] == steps;
  }

  lemma ReachesCell(w0: World, steps: seq<Step>, w: World, v: nat)
    requires Reaches(w0, steps, w) && v in w.db
    ensures v in w0.db && Stored(w.db, v) && Stored(w0.db, v)
    ensures CellInv(v, w.db[v]) && AuditInv(w, v) && w.db[v].history[0] == w0.db[v].history[0]
  {
    hide RunInv, PendingInv, RowOk;
    ReachesInv(w0, steps, w);
    RunExtends(w0, steps);
    assert CellInv(v, w.db[v]) && AuditInv(w, v);
    assert w0.db[v].history <= w.db[v].history;
  }

  lemma ReachesRun(w0: World, steps: seq<Step>, w: World, a: nat)
    requires Reaches(w0, steps, w) && a in w.agents
    ensures RunInv(w.db, a, w.agents[a]) && Stored(w.db, w.agents[a].vehicle)
    ensures CellInv(w.agents[a].vehicle, w.db[w.agents[a].vehicle])
  {
    hide PendingInv, CellInv;
    ReachesInv(w0, steps, w);
    assert RunInv(w.db, a, w.agents[a]);
    ReachesCell(w0, steps, w, w.agents[a].vehicle);
  }

  /** Linearizability: every interleaving leaves what the atomic reference leaves when it runs the
      audited writes one after the other, and no property loses a write. */
  lemma InterleavingsAreSerial(w0: World, steps: seq<Step>, w: World, v: nat, p: Property, zone: Option<Zone>)
    requires Reaches(w0, steps, w) && v in w.db
    ensures Stored(w0.db, v) && Stored(w.db, v)
    ensures var first, c := w0.db[v].history[0], w.db[v];
            && Serial(first, Writes(v, c.audit)) == Some(Latest(c))
            && Latest(c).version == |c.audit|
            && ReadProperty(Latest(c), p, zone)
               == match LastWritten(c.audit, p, zone)
                  case Some(value) => Success(value)
                  case None => ReadProperty(first, p, zone)
  {
    ReachesCell(w0, steps, w, v);
    var c := w.db[v];
    assert c.audit[..|c.audit|] == c.audit;
    HistoryIsSerial(v, c, |c.audit|);
    NoWriteIsLost(v, c, |c.audit|, p, zone);
    AuditVersionsAreDense(v, c);
  }

  /** The audit table is a faithful log in both directions. */
  lemma AuditIsReversible(w0: World, steps: seq<Step>, w: World, v: nat)
    requires Reaches(w0, steps, w) && v in w.db
    ensures Stored(w0.db, v) && Stored(w.db, v)
    ensures ReplayForward(w0.db[v].history[0], w.db[v].audit) == Latest(w.db[v])
    ensures ReplayBackward(Latest(w.db[v]), w.db[v].audit) == w0.db[v].history[0]
    ensures forall i :: 0 <= i < |w.db[v].audit| ==> w.db[v].audit[i].stateVersion == i + 1
  {
    ReachesCell(w0, steps, w, v);
    var c := w.db[v];
    assert c.audit[..|c.audit|] == c.audit;
    AuditReplays(v, c, |c.audit|);
    AuditVersionsAreDense(v, c);
  }

  /** Authorized against a snapshot, still valid at commit: whatever manual writers did in between,
      an agent's door-OPEN lands on a standing vehicle in P, and its CHARGING on a vehicle in P. */
  lemma AgentWritesLandSafely(w0: World, steps: seq<Step>, w: World, v: nat, i: nat)
    requires Reaches(w0, steps, w) && v in w.db
    requires i < |w.db[v].audit| && w.db[v].audit[i].requestId.Agent?
    ensures i < |w.db[v].history|
    ensures var row, landing := w.db[v].audit[i], w.db[v].history[i];
            && landing.version + 1 == row.stateVersion
            && (row.property.DoorState? && row.newValue == Text("OPEN") ==>
                  landing.gear == Text("P") && landing.speedKph == 0.0)
            && (row.property.ChargeStatus? && row.newValue == Text("CHARGING") ==> landing.gear == Text("P"))
            && !row.property.Gear?
    ensures var row := w.db[v].audit[i];
            && row.requestId.id in w.agents && w.agents[row.requestId.id].Executing?
            && (row.property.DoorState? && row.newValue == Text("OPEN") ==>
                  var observed := w.agents[row.requestId.id].observed;
                  observed.None? || observed.value <= 0.0)
  {
    ReachesCell(w0, steps, w, v);
    assert RowOk(v, w.db[v], i);
    AuditVersionsAreDense(v, w.db[v]);
  }

  lemma {:induction false} SuccessesGrow(outcomes: seq<Outcome>, i: nat, j: nat)
    requires i <= j <= |outcomes|
    ensures Successes(outcomes[..i]) <= Successes(outcomes[..j]) <= Successes(outcomes[..i]) + (j - i)
  {
    if i < j {
      assert outcomes[..j][..j - 1] == outcomes[..j - 1];
      SuccessesGrow(outcomes, i, j - 1);
    }
  }

  lemma LaterSuccessCountsMore(outcomes: seq<Outcome>, i: nat, j: nat)
    requires i < j < |outcomes| && outcomes[i].status.Done? && outcomes[j].status.Done?
    ensures 1 <= Successes(outcomes[..i + 1]) < Successes(outcomes[..j + 1])
  {
    SuccessesGrow(outcomes, i + 1, j);
    assert outcomes[..j + 1][..j] == outcomes[..j];
    assert outcomes[..i + 1][..i] == outcomes[..i];
  }

  /** An acknowledged commit sits in the audit table at the version it reported, inside the run's own span. */
  lemma AcknowledgedCommit(c: Cell, a: nat, run: AgentRun, j: nat)
    requires run.Executing? && Owned(c, a, run) && Acknowledged(c, run)
    requires j < |run.outcomes| && run.outcomes[j].status.Done?
    ensures var v := run.outcomes[j].status.version;
            && v == run.snapshot.version + Successes(run.outcomes[..j + 1])
            && 1 <= v <= |c.audit| && v <= run.current.version
            && Records(c.audit[v - 1], run.outcomes[j].command)
            && forall k :: run.snapshot.version <= k < v ==> c.audit[k].requestId == Agent(a)
  {
  }

  /** Two acknowledged commits of one run: no other writer's commit lies between them. */
  lemma AcknowledgedCommitsAreAdjacent(w0: World, steps: seq<Step>, w: World, a: nat, i: nat, j: nat)
    requires Reaches(w0, steps, w) && a in w.agents && w.agents[a].Executing?
    requires i < j < |w.agents[a].outcomes|
    requires w.agents[a].outcomes[i].status.Done? && w.agents[a].outcomes[j].status.Done?
    ensures var run := w.agents[a];
            var first, last := run.outcomes[i].status.version, run.outcomes[j].status.version;
            && run.vehicle in w.db && 1 <= first < last <= |w.db[run.vehicle].audit|
            && (forall k :: first - 1 <= k < last ==> w.db[run.vehicle].audit[k].requestId == Agent(a))
            && Records(w.db[run.vehicle].audit[first - 1], run.outcomes[i].command)
            && Records(w.db[run.vehicle].audit[last - 1], run.outcomes[j].command)
  {
    hide Anchored, Aligned, Owned, Acknowledged, Doomed, CellInv;
    ReachesRun(w0, steps, w, a);
    var run := w.agents[a];
    LaterSuccessCountsMore(run.outcomes, i, j);
    AcknowledgedCommit(w.db[run.vehicle], a, run, i);
    AcknowledgedCommit(w.db[run.vehicle], a, run, j);
  }

  /** Which commits are a run's: the versions it was told of, next to its snapshot, and at most one more,
      which then belongs to a call that was reported as a storage failure. */
  lemma OwnCommits(w0: World, steps: seq<Step>, w: World, a: nat, v: nat, k: nat)
    requires Reaches(w0, steps, w) && v in w.db && k < |w.db[v].audit|
    requires a in w.agents && w.agents[a].Executing?
    ensures var run := w.agents[a];
            var told := run.snapshot.version + Successes(run.outcomes);
            && (v == run.vehicle && run.snapshot.version <= k < told ==> w.db[v].audit[k].requestId == Agent(a))
            && (w.db[v].audit[k].requestId == Agent(a) ==>
                  && v == run.vehicle && run.snapshot.version <= k <= told
                  && (k == told ==> exists j :: 0 <= j < |run.outcomes| && Unacknowledged(run.outcomes[j])))
  {
    ReachesCell(w0, steps, w, v);
    ReachesRun(w0, steps, w, a);
  }

  /** Outcome i is about command i, and is a block, for the rule in question, exactly when the rules refuse
      command i on the snapshot. */
  lemma OutcomesAlign(w0: World, steps: seq<Step>, w: World, a: nat, i: nat)
    requires Reaches(w0, steps, w) && a in w.agents && w.agents[a].Executing? && i < |w.agents[a].outcomes|
    ensures var run := w.agents[a];
            && i < |run.commands| == |run.actions|
            && run.outcomes[i].command == run.commands[i]
            && (run.outcomes[i].status.Blocked? <==> !RulesAllow(run.commands[i], run.snapshot, run.observed))
            && (run.outcomes[i].status.Blocked? ==>
                  run.outcomes[i].status.code == RefusalCode(run.commands[i], run.snapshot, run.observed))
  {
    ReachesRun(w0, steps, w, a);
    var run := w.agents[a];
    assert run.actions[i] == Authorize(run.commands[i], run.snapshot, run.observed);
    GateDecides(run.commands[i], run.snapshot, run.observed);
  }

  /** Every committed row keeps all its properties in range and the speed it was created with. */
  lemma RowsStayInRange(w0: World, steps: seq<Step>, w: World, v: nat, k: nat)
    requires Reaches(w0, steps, w) && v in w.db && k < |w.db[v].history|
    ensures ValidRow(w.db[v].history[k])
    ensures Stored(w0.db, v) && w.db[v].history[k].speedKph == w0.db[v].history[0].speedKph
  {
    ReachesCell(w0, steps, w, v);
    assert RowOk(v, w.db[v], k);
  }
}
