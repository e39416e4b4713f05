/**
 Agent runs, manual writers and the vehicle store as one step system.

 A run of the system is any interleaving of atomic steps: a client reading, a client committing, an agent
 loading its context, an agent passing its planned commands through the registry and the safety gate.
 Manual writers may change any writable property, gear included, and never pass the gate.
 */
module AgentSystem {
  import opened Faults
  import opened Wrappers
  import opened VehicleProperties
  import opened SafetyPolicy
  import opened ToolRegistry
  import opened VehicleHal

  datatype Status = Blocked(code: string) | Done(newValue: Value, version: nat) | Failed(error: VehicleError)

  datatype Outcome = Outcome(command: ToolCommand, status: Status)

  datatype AgentRun =
    | Loaded(vehicle: nat, snapshot: VehicleState)
    | Executing(vehicle: nat, snapshot: VehicleState, observed: Option<real>,
                commands: seq<ToolCommand>, actions: seq<Action>,
                current: VehicleState, outcomes: seq<Outcome>)

  datatype World = World(db: Db, pending: map<RequestId, Pending>, agents: map<nat, AgentRun>)

  datatype Step =
    | ManualBegin(id: nat, vehicle: nat, property: Property, zone: Option<Zone>, value: Value, expected: int,
                  read: Option<nat>)
    | ManualCommit(id: nat, fault: Fault)
    | AgentLoad(a: nat, vehicle: nat, row: nat)
    | AgentGate(a: nat, plans: seq<ToolCallPlan>, observed: Option<real>)
    | AgentBegin(a: nat, read: Option<nat>)
    | AgentCommit(a: nat, fault: Fault)

  /** The commands of the plans the registry accepts, in order; the others are only counted. */
  function AcceptedCommands(plans: seq<ToolCallPlan>): seq<ToolCommand> {
    if plans == [] then [] else
    var rest := AcceptedCommands(plans[..|plans| - 1]);
    var r := Validate(plans[|plans| - 1]);
    if r.Success? then rest + [r.value] else rest
  }

  function SafetyGate(commands: seq<ToolCommand>, s: VehicleState, observed: Option<real>): seq<Action> {
    seq(|commands|, i requires 0 <= i < |commands| => Authorize(commands[i], s, observed))
  }

  /** The executor: refuse anything without a valid permit, otherwise write through the service. */
  function ExecutorWrite(run: AgentRun, call: AuthorizedToolCall, a: nat): Result<Write, VehicleError>
    requires run.Executing?
  {
    if !call.IsValid() then Failure(NotPermitted)
    else ServiceWrite(run.vehicle, call.command.property, call.command.zone, call.command.value,
                      run.current.version, Agent(a))
  }

  /** The executor refuses exactly what the engine has not approved and permitted. */
  lemma ExecutorRefusesIff(run: AgentRun, call: AuthorizedToolCall, a: nat)
    requires run.Executing?
    ensures ExecutorWrite(run, call, a) == Failure(NotPermitted) <==> !(call.decision.approved && call.permit == EnginePermit)
  {
  }

  predicate HasNext(run: AgentRun) {
    run.Executing? && |run.outcomes| < |run.actions| == |run.commands|
  }

  function Push(run: AgentRun, command: ToolCommand, status: Status): AgentRun
    requires run.Executing?
  {
    run.(outcomes := run.outcomes + [Outcome(command, status)])
  }

  function BeginAction(w: World, a: nat, run: AgentRun, read: Option<nat>): World
    requires HasNext(run)
  {
    var n := |run.outcomes|;
    match run.actions[n]
    case Rejected(decision) =>
      w.(agents := w.agents[a := Push(run, run.commands[n], Blocked(decision.code))])
    case Authorized(call) =>
      var write := ExecutorWrite(run, call, a);
      var t := if write.Failure? then Failure(write.error) else BeginTransaction(w.db, write.value, read);
      if t.Failure? then w.(agents := w.agents[a := Push(run, call.command, Failed(t.error))])
      else w.(pending := w.pending[Agent(a) := t.value])
  }

  function FinishAction(run: AgentRun, r: Result<Change, VehicleError>): AgentRun
    requires HasNext(run)
  {
    var command := run.commands[|run.outcomes|];
    if r.Failure? then Push(run, command, Failed(r.error))
    else run.(outcomes := run.outcomes + [Outcome(command, Done(r.value.newValue, r.value.state.version))],
              current := r.value.state)
  }

  /** One atomic step; a step that does not apply changes nothing. */
  function Next(w: World, s: Step): World {
    match s
    case ManualBegin(id, vehicle, p, zone, value, expected, read) =>
      var write := ServiceWrite(vehicle, p, zone, value, expected, Manual(id));
      if write.Failure? || Manual(id) in w.pending then w else
      var t := BeginTransaction(w.db, write.value, read);
      if t.Failure? then w else w.(pending := w.pending[Manual(id) := t.value])
    case ManualCommit(id, fault) =>
      if Manual(id) !in w.pending || !Stored(w.db, w.pending[Manual(id)].write.vehicle) then w else
      w.(db := CommitTransaction(w.db, w.pending[Manual(id)], fault).0, pending := w.pending - {Manual(id)})
    case AgentLoad(a, vehicle, row) =>
      if a in w.agents || !Stored(w.db, vehicle) then w else
      w.(agents := w.agents[a := Loaded(vehicle, RowAt(w.db[vehicle], row))])
    case AgentGate(a, plans, observed) =>
      if a !in w.agents || !w.agents[a].Loaded? then w else
      var run := w.agents[a];
      var commands := AcceptedCommands(plans);
      w.(agents := w.agents[a := Executing(run.vehicle, run.snapshot, observed, commands,
                                           SafetyGate(commands, run.snapshot, observed), run.snapshot, [])])
    case AgentBegin(a, read) =>
      if a !in w.agents || !HasNext(w.agents[a]) || Agent(a) in w.pending then w else
      BeginAction(w, a, w.agents[a], read)
    case AgentCommit(a, fault) =>
      if a !in w.agents || !HasNext(w.agents[a]) || Agent(a) !in w.pending
         || !Stored(w.db, w.pending[Agent(a)].write.vehicle) then w else
      var (db', r) := CommitTransaction(w.db, w.pending[Agent(a)], fault);
      World(db', w.pending - {Agent(a)}, w.agents[a := FinishAction(w.agents[a], r)])
  }

  function Run(w: World, steps: seq<Step>): World {
    if steps == [] then w else Next(Run(w, steps[..|steps| - 1]), steps[|steps| - 1])
  }

  /** Freshly created vehicles at version 0, no client at work. */
  ghost predicate Initial(w: World) {
    && w.pending == map[] && w.agents == map[]
    && forall v | v in w.db :: |w.db[v].history| == 1 && w.db[v].audit == [] && RowOk(v, w.db[v], 0)
  }

  // ----- One client among others -----

  /** A step of some other client. */
  predicate Foreign(client: RequestId, s: Step) {
    match s
    case ManualBegin(id, _, _, _, _, _, _) => client != Manual(id)
    case ManualCommit(id, _) => client != Manual(id)
    case AgentLoad(a, _, _) => client != Agent(a)
    case AgentGate(a, _, _) => client != Agent(a)
    case AgentBegin(a, _) => client != Agent(a)
    case AgentCommit(a, _) => client != Agent(a)
  }

  /** Other clients leave a client's transaction and run alone. */
  predicate SameClient(client: RequestId, w: World, w': World) {
    && (client in w.pending <==> client in w'.pending)
    && (client in w.pending ==> w'.pending[client] == w.pending[client])
    && (client.Agent? && client.id in w.agents ==>
          client.id in w'.agents && w'.agents[client.id] == w.agents[client.id])
  }

  lemma ForeignKeepsClient(client: RequestId, w: World, s: Step)
    requires Foreign(client, s)
    ensures SameClient(client, w, Next(w, s))
  {
    hide BeginTransaction, CommitTransaction, ServiceWrite, ExecutorWrite, SafetyGate, AcceptedCommands, FinishAction;
  }

  lemma {:induction false} RunInParts(w: World, first: seq<Step>, second: seq<Step>)
    ensures Run(w, first + second) == Run(Run(w, first), second)
  {
    if second == [] {
      assert first + second == first;
    } else {
      assert (first + second)[..|first + second| - 1] == first + second[..|second| - 1];
      RunInParts(w, first, second[..|second| - 1]);
    }
  }

  lemma RunOne(w: World, s: Step)
    ensures Run(w, [s]) == Next(w, s)
  {
    assert [s][..0] == [];
    assert Run(w, []) == w;
  }

  lemma RunThenStep(w: World, steps: seq<Step>, s: Step)
    ensures Run(w, steps + [s]) == Next(Run(w, steps), s)
  {
    RunInParts(w, steps, [s]);
    RunOne(Run(w, steps), s);
  }

  // ----- The invariant -----

  function Successes(outcomes: seq<Outcome>): nat {
    if outcomes == [] then 0
    else Successes(outcomes[..|outcomes| - 1]) + if outcomes[|outcomes| - 1].status.Done? then 1 else 0
  }

  /** A version conflict reported against a row newer than the one expected. */
  predicate Overtaken(o: Outcome) {
    o.status.Failed? && o.status.error.VersionConflict? && o.status.error.current > o.status.error.expected
  }

  predicate Unacknowledged(o: Outcome) { o.status == Failed(Storage) }

  /** An audit row that records a command's write. */
  predicate Records(row: AuditRow, command: ToolCommand) {
    row.property == command.property && row.zone == command.zone && SameValue(command.value, row.newValue)
  }

  /** Snapshot and current row are committed rows; the agent has not moved the gear. */
  predicate Anchored(c: Cell, run: AgentRun)
    requires run.Executing?
  {
    && run.snapshot.version <= run.current.version < |c.history|
    && c.history[run.snapshot.version] == run.snapshot
    && c.history[run.current.version] == run.current
    && run.current.gear == run.snapshot.gear
  }

  ghost predicate Aligned(run: AgentRun)
    requires run.Executing?
  {
    && |run.outcomes| <= |run.actions| == |run.commands|
    && run.actions == SafetyGate(run.commands, run.snapshot, run.observed)
    && (forall i :: 0 <= i < |run.commands| ==> Listed(run.commands[i]))
    && (forall i :: 0 <= i < |run.outcomes| ==>
          && run.outcomes[i].command == run.commands[i]
          && (run.outcomes[i].status.Blocked? <==> run.actions[i].Rejected?)
          && (run.outcomes[i].status.Blocked? ==> run.outcomes[i].status.code == run.actions[i].decision.code))
  }

  /** Every version between snapshot and current row is the run's own; it has at most one commit beyond. */
  ghost predicate Owned(c: Cell, a: nat, run: AgentRun)
    requires run.Executing?
  {
    && (forall i :: run.snapshot.version <= i < run.current.version && i < |c.audit| ==> c.audit[i].requestId == Agent(a))
    && (forall i :: 0 <= i < |c.audit| && c.audit[i].requestId == Agent(a) ==>
          && run.snapshot.version <= i <= run.current.version
          && (i == run.current.version ==> exists j :: 0 <= j < |run.outcomes| && Unacknowledged(run.outcomes[j])))
  }

  ghost predicate Acknowledged(c: Cell, run: AgentRun)
    requires run.Executing?
  {
    && run.current.version == run.snapshot.version + Successes(run.outcomes)
    && (forall j :: 0 <= j < |run.outcomes| && run.outcomes[j].status.Done? ==>
          var v := run.outcomes[j].status.version;
          && v == run.snapshot.version + Successes(run.outcomes[..j + 1])
          && 1 <= v <= |c.audit| && v <= run.current.version
          && Records(c.audit[v - 1], run.outcomes[j].command))
  }

  ghost predicate Doomed(c: Cell, run: AgentRun)
    requires run.Executing?
  {
    forall i :: 0 <= i < |run.outcomes| && Overtaken(run.outcomes[i]) ==>
      && run.current.version + 1 < |c.history|
      && forall j :: i < j < |run.outcomes| ==> !run.outcomes[j].status.Done?
  }

  ghost predicate RunInv(db: Db, a: nat, run: AgentRun) {
    && Stored(db, run.vehicle)
    && var c := db[run.vehicle];
    match run
    case Loaded(_, snapshot) => snapshot.version < |c.history| && c.history[snapshot.version] == snapshot
    case Executing(_, _, _, _, _, _, _) =>
      Anchored(c, run) && Aligned(run) && Owned(c, a, run) && Acknowledged(c, run) && Doomed(c, run)
  }

  /** Only an executing agent with a call to finish has a transaction open, and it is that call's. */
  ghost predicate CallInv(w: World, a: nat) {
    Agent(a) in w.pending ==>
      && a in w.agents && HasNext(w.agents[a])
      && var run := w.agents[a];
      && run.actions[|run.outcomes|].Authorized?
      && ExecutorWrite(run, run.actions[|run.outcomes|].call, a) == Success(w.pending[Agent(a)].write)
  }

  ghost predicate AuditInv(w: World, v: nat)
    requires v in w.db
  {
    forall i :: 0 <= i < |w.db[v].audit| && w.db[v].audit[i].requestId.Agent? ==>
      && w.db[v].audit[i].requestId.id in w.agents
      && w.agents[w.db[v].audit[i].requestId.id].Executing?
      && w.agents[w.db[v].audit[i].requestId.id].vehicle == v
      && i < |w.db[v].history|
      && !w.db[v].audit[i].property.Gear?
      && SafeOn(w.db[v].audit[i].property, w.db[v].audit[i].newValue, w.db[v].history[i])
      && (OpensDoor(w.db[v].audit[i].property, w.db[v].audit[i].newValue) ==>
            SaidToStand(w.agents[w.db[v].audit[i].requestId.id].observed))
  }

  ghost predicate StoreInv(w: World) {
    forall v | v in w.db :: CellInv(v, w.db[v]) && AuditInv(w, v)
  }

  ghost predicate OpenInv(w: World) {
    forall id | id in w.pending :: PendingInv(w.db, w.pending[id]) && w.pending[id].write.requestId == id
  }

  ghost predicate CallsInv(w: World) {
    forall a: nat :: CallInv(w, a)
  }

  ghost predicate RunsInv(w: World) {
    forall a | a in w.agents :: RunInv(w.db, a, w.agents[a])
  }

  ghost predicate Inv(w: World) {
    StoreInv(w) && OpenInv(w) && CallsInv(w) && RunsInv(w)
  }

  // ----- Every step keeps the invariant -----

  lemma PushCounts(outcomes: seq<Outcome>, o: Outcome)
    ensures Successes(outcomes + [o]) == Successes(outcomes) + if o.status.Done? then 1 else 0
  {
    assert (outcomes + [o])[..|outcomes|] == outcomes;
  }

  /** Commits by other clients leave a run's invariant alone. */
  lemma ForeignCommitKeepsRun(db: Db, db': Db, a: nat, run: AgentRun)
    requires RunInv(db, a, run) && Extends(db, db') && Stored(db', run.vehicle)
    requires CellInv(run.vehicle, db[run.vehicle]) && CellInv(run.vehicle, db'[run.vehicle])
    requires forall i :: |db[run.vehicle].audit| <= i < |db'[run.vehicle].audit| ==>
               db'[run.vehicle].audit[i].requestId != Agent(a)
    ensures RunInv(db', a, run)
  {
    var c, c' := db[run.vehicle], db'[run.vehicle];
    assert forall i :: 0 <= i < |c.history| ==> c'.history[i] == c.history[i];
    assert forall i :: 0 <= i < |c.audit| ==> c'.audit[i] == c.audit[i];
  }

  lemma PushKeepsAligned(run: AgentRun, status: Status)
    requires HasNext(run) && Aligned(run)
    requires status.Blocked? <==> run.actions[|run.outcomes|].Rejected?
    requires status.Blocked? ==> status.code == run.actions[|run.outcomes|].decision.code
    ensures Aligned(Push(run, run.commands[|run.outcomes|], status))
  {
  }

  lemma PushKeepsOwned(c: Cell, a: nat, run: AgentRun, command: ToolCommand, status: Status)
    requires run.Executing? && Owned(c, a, run)
    ensures Owned(c, a, Push(run, command, status))
  {
    var outcomes := Push(run, command, status).outcomes;
    forall j | 0 <= j < |run.outcomes| && Unacknowledged(run.outcomes[j]) ensures Unacknowledged(outcomes[j]) {}
  }

  lemma PushKeepsAcknowledged(c: Cell, run: AgentRun, command: ToolCommand, status: Status)
    requires run.Executing? && Acknowledged(c, run) && !status.Done?
    ensures Acknowledged(c, Push(run, command, status))
  {
    var run' := Push(run, command, status);
    PushCounts(run.outcomes, Outcome(command, status));
    forall j | 0 <= j < |run.outcomes|
      ensures run'.outcomes[j] == run.outcomes[j] && run'.outcomes[..j + 1] == run.outcomes[..j + 1]
    {}
  }

  /** Recording a blocked or failed call, without a commit, keeps a run's invariant. */
  lemma PushKeepsRun(db: Db, a: nat, run: AgentRun, status: Status)
    requires RunInv(db, a, run) && HasNext(run) && !status.Done?
    requires status.Blocked? <==> run.actions[|run.outcomes|].Rejected?
    requires status.Blocked? ==> status.code == run.actions[|run.outcomes|].decision.code
    requires status.Failed? && status.error.VersionConflict? && status.error.current > status.error.expected ==>
               run.current.version + 1 < |db[run.vehicle].history|
    ensures RunInv(db, a, Push(run, run.commands[|run.outcomes|], status))
  {
    var c := db[run.vehicle];
    var command := run.commands[|run.outcomes|];
    PushKeepsAligned(run, status);
    PushKeepsOwned(c, a, run, command, status);
    PushKeepsAcknowledged(c, run, command, status);
    var run' := Push(run, command, status);
    assert Doomed(c, run') by {
      assert forall i :: 0 <= i < |run.outcomes| ==> run'.outcomes[i] == run.outcomes[i];
    }
    assert Anchored(c, run');
  }

  /** While the current row is still the latest, no call has been overtaken and no commit is outstanding. */
  lemma FreshRun(c: Cell, a: nat, run: AgentRun)
    requires run.Executing? && Anchored(c, run) && Owned(c, a, run) && Doomed(c, run)
    requires |c.history| == |c.audit| + 1 == run.current.version + 1
    ensures forall i :: 0 <= i < |run.outcomes| ==> !Overtaken(run.outcomes[i])
    ensures forall i :: 0 <= i < |c.audit| && c.audit[i].requestId == Agent(a) ==> i < run.current.version
  {
  }

  /** A commit that took effect but was reported as a storage failure. */
  lemma LostReplyKeepsRun(c: Cell, a: nat, run: AgentRun, c': Cell)
    requires HasNext(run) && Anchored(c, run) && Aligned(run) && Owned(c, a, run) && Acknowledged(c, run) && Doomed(c, run)
    requires |c.history| == |c.audit| + 1 == run.current.version + 1
    requires |c'.history| == |c.history| + 1 && c'.history[..|c.history|] == c.history
    requires |c'.audit| == |c.audit| + 1 && c'.audit[..|c.audit|] == c.audit
    requires run.actions[|run.outcomes|].Authorized?
    ensures var run' := Push(run, run.commands[|run.outcomes|], Failed(Storage));
            Anchored(c', run') && Aligned(run') && Owned(c', a, run') && Acknowledged(c', run') && Doomed(c', run')
  {
    var command := run.commands[|run.outcomes|];
    var run' := Push(run, command, Failed(Storage));
    FreshRun(c, a, run);
    PushKeepsAligned(run, Failed(Storage));
    PushKeepsAcknowledged(c, run, command, Failed(Storage));
    assert forall i :: 0 <= i < |c.history| ==> c'.history[i] == c.history[i];
    assert forall i :: 0 <= i < |c.audit| ==> c'.audit[i] == c.audit[i];
    assert Unacknowledged(run'.outcomes[|run.outcomes|]);
    assert Owned(c', a, run');
    assert Doomed(c', run') by {
      assert forall i :: 0 <= i < |run.outcomes| ==> run'.outcomes[i] == run.outcomes[i];
    }
  }

  /** `c'` is `c` with one more commit, the one that `change` reports to the run. */
  predicate CommittedBy(c: Cell, a: nat, run: AgentRun, c': Cell, change: Change)
    requires HasNext(run)
  {
    && |c.history| == |c.audit| + 1 == run.current.version + 1
    && |c'.history| == |c.history| + 1 && c'.history[..|c.history|] == c.history
    && |c'.audit| == |c.audit| + 1 && c'.audit[..|c.audit|] == c.audit
    && change.state == c'.history[|c.history|] && change.state.version == |c.history|
    && change.state.gear == run.current.gear
    && c'.audit[|c.audit|].requestId == Agent(a)
    && Records(c'.audit[|c.audit|], run.commands[|run.outcomes|])
  }

  lemma SuccessKeepsOwned(c: Cell, a: nat, run: AgentRun, c': Cell, change: Change)
    requires HasNext(run) && Anchored(c, run) && Owned(c, a, run) && Doomed(c, run) && CommittedBy(c, a, run, c', change)
    ensures var run' := FinishAction(run, Success(change));
            Anchored(c', run') && Owned(c', a, run') && Doomed(c', run')
  {
    var run' := FinishAction(run, Success(change));
    FreshRun(c, a, run);
    assert forall i :: 0 <= i < |c.history| ==> c'.history[i] == c.history[i];
    assert forall i :: 0 <= i < |c.audit| ==> c'.audit[i] == c.audit[i];
    assert forall i :: 0 <= i < |run.outcomes| ==> run'.outcomes[i] == run.outcomes[i];
  }

  lemma SuccessKeepsAcknowledged(c: Cell, a: nat, run: AgentRun, c': Cell, change: Change)
    requires HasNext(run) && Acknowledged(c, run) && CommittedBy(c, a, run, c', change)
    ensures Acknowledged(c', FinishAction(run, Success(change)))
  {
    hide Successes;
    var run' := FinishAction(run, Success(change));
    var n := |run.outcomes|;
    PushCounts(run.outcomes, run'.outcomes[n]);
    assert run'.outcomes == run.outcomes + [run'.outcomes[n]];
    assert run'.outcomes[..n + 1] == run'.outcomes;
    forall j | 0 <= j < n && run.outcomes[j].status.Done?
      ensures run'.outcomes[j] == run.outcomes[j] && run'.outcomes[..j + 1] == run.outcomes[..j + 1]
      ensures c'.audit[run.outcomes[j].status.version - 1] == c.audit[run.outcomes[j].status.version - 1]
    {}
  }

  /** An acknowledged commit: the run moves on to the row it wrote. */
  lemma SuccessKeepsRun(c: Cell, a: nat, run: AgentRun, c': Cell, change: Change)
    requires HasNext(run) && Anchored(c, run) && Aligned(run) && Owned(c, a, run) && Acknowledged(c, run) && Doomed(c, run)
    requires CommittedBy(c, a, run, c', change)
    requires run.actions[|run.outcomes|].Authorized?
    ensures var run' := FinishAction(run, Success(change));
            Anchored(c', run') && Aligned(run') && Owned(c', a, run') && Acknowledged(c', run') && Doomed(c', run')
  {
    PushKeepsAligned(run, Done(change.newValue, change.state.version));
    SuccessKeepsOwned(c, a, run, c', change);
    SuccessKeepsAcknowledged(c, a, run, c', change);
  }

  lemma OwnCommitKeepsRun(db: Db, a: nat, run: AgentRun, t: Pending, fault: Fault)
    requires RunInv(db, a, run) && HasNext(run) && run.actions[|run.outcomes|].Authorized?
    requires CellInv(run.vehicle, db[run.vehicle]) && PendingInv(db, t)
    requires ExecutorWrite(run, run.actions[|run.outcomes|].call, a) == Success(t.write)
    ensures var (db', r) := CommitTransaction(db, t, fault); RunInv(db', a, FinishAction(run, r))
  {
    var c := db[run.vehicle];
    var (db', r) := CommitTransaction(db, t, fault);
    assert RowOk(run.vehicle, c, |c.history| - 1);
    assert RowOk(run.vehicle, c, run.current.version);
    CommitRefines(db, t, fault);
    if fault.LostBefore? || Latest(c).version != t.row.version {
      PushKeepsRun(db, a, run, Failed(r.error));
    } else if fault.LostAfter? {
      LostReplyKeepsRun(c, a, run, db'[run.vehicle]);
    } else {
      var command := run.commands[|run.outcomes|];
      assert run.actions[|run.outcomes|] == Authorize(command, run.snapshot, run.observed);
      AcceptedMeansWritten(command);
      LensLaws(t.row, t.write.property, t.write.zone, t.write.value, t.write.value);
      assert ReadProperty(t.candidate, Gear, None) == ReadProperty(t.row, Gear, None);
      SuccessKeepsRun(c, a, run, db'[run.vehicle], r.value);
    }
  }

  /** Agents keep their vehicle and, once executing, keep executing. */
  predicate SameAgents(w: World, w': World) {
    forall a | a in w.agents ::
      && a in w'.agents && w'.agents[a].vehicle == w.agents[a].vehicle
      && (w.agents[a].Executing? ==> w'.agents[a].Executing? && w'.agents[a].observed == w.agents[a].observed)
  }

  /** What the store's invariant says of one vehicle. */
  lemma CellOf(w: World, v: nat)
    requires StoreInv(w) && v in w.db
    ensures CellInv(v, w.db[v]) && AuditInv(w, v)
  {
  }

  lemma QuietKeepsStore(w: World, w': World)
    requires StoreInv(w) && w'.db == w.db && SameAgents(w, w')
    ensures StoreInv(w')
  {
    forall v | v in w.db ensures CellInv(v, w'.db[v]) && AuditInv(w', v) { assert CellInv(v, w.db[v]) && AuditInv(w, v); }
  }

  lemma CommitKeepsStore(w: World, t: Pending, fault: Fault, w': World)
    requires StoreInv(w) && PendingInv(w.db, t) && SameAgents(w, w')
    requires w'.db == CommitTransaction(w.db, t, fault).0
    requires t.write.requestId.Agent? ==>
               && t.write.requestId.id in w.agents
               && w.agents[t.write.requestId.id].Executing?
               && w.agents[t.write.requestId.id].vehicle == t.write.vehicle
               && SafeOn(t.write.property, t.write.value, t.row) && !t.write.property.Gear?
               && (OpensDoor(t.write.property, t.write.value) ==> SaidToStand(w.agents[t.write.requestId.id].observed))
    ensures StoreInv(w')
  {
    hide CommitTransaction, PendingInv, CellInv, AuditInv, SafeOn, SameAgents;
    PendingIsStored(w.db, t);
    CellOf(w, t.write.vehicle);
    CommitRefines(w.db, t, fault);
    forall v | v in w'.db ensures CellInv(v, w'.db[v]) && AuditInv(w', v) {
      CellOf(w, v);
      if v == t.write.vehicle { CommitKeepsAudit(w, t, fault, w'); } else { SameCellKeepsAudit(w, w', v); }
    }
  }

  lemma PendingIsStored(db: Db, t: Pending)
    requires PendingInv(db, t)
    ensures Stored(db, t.write.vehicle)
  {
  }

  lemma SameCellKeepsAudit(w: World, w': World, v: nat)
    requires v in w.db && AuditInv(w, v) && SameAgents(w, w') && v in w'.db && w'.db[v] == w.db[v]
    ensures AuditInv(w', v)
  {
  }

  lemma CommitKeepsAudit(w: World, t: Pending, fault: Fault, w': World)
    requires PendingInv(w.db, t) && SameAgents(w, w')
    requires CellInv(t.write.vehicle, w.db[t.write.vehicle]) && AuditInv(w, t.write.vehicle)
    requires w'.db == CommitTransaction(w.db, t, fault).0
    requires t.write.requestId.Agent? ==>
               && t.write.requestId.id in w.agents
               && w.agents[t.write.requestId.id].Executing?
               && w.agents[t.write.requestId.id].vehicle == t.write.vehicle
               && SafeOn(t.write.property, t.write.value, t.row) && !t.write.property.Gear?
               && (OpensDoor(t.write.property, t.write.value) ==> SaidToStand(w.agents[t.write.requestId.id].observed))
    ensures t.write.vehicle in w'.db && AuditInv(w', t.write.vehicle)
  {
    hide CommitTransaction, SafeOn, PendingInv, RowOk, VehicleHal.Follows;
    PendingIsStored(w.db, t);
    CommitRefines(w.db, t, fault);
    var c, c' := w.db[t.write.vehicle], w'.db[t.write.vehicle];
    forall i | 0 <= i < |c'.audit| && i < |c.audit| ensures c'.audit[i] == c.audit[i] && c'.history[i] == c.history[i] {}
  }

  lemma CommitKeepsOpen(w: World, id: RequestId, fault: Fault, w': World)
    requires OpenInv(w) && StoreInv(w) && id in w.pending
    requires w'.db == CommitTransaction(w.db, w.pending[id], fault).0 && w'.pending == w.pending - {id}
    ensures OpenInv(w')
  {
    var t := w.pending[id];
    assert CellInv(t.write.vehicle, w.db[t.write.vehicle]);
    CommitRefines(w.db, t, fault);
    forall x | x in w'.pending ensures PendingInv(w'.db, w'.pending[x]) && w'.pending[x].write.requestId == x {
      PendingKeeps(w.db, w'.db, w.pending[x]);
    }
  }

  lemma CommitKeepsOtherRun(w: World, t: Pending, fault: Fault, a: nat)
    requires StoreInv(w) && PendingInv(w.db, t) && a in w.agents && RunInv(w.db, a, w.agents[a])
    requires t.write.requestId != Agent(a)
    ensures RunInv(CommitTransaction(w.db, t, fault).0, a, w.agents[a])
  {
    var db' := CommitTransaction(w.db, t, fault).0;
    hide CommitTransaction, PendingInv, RunInv, StoreInv, CellInv, ReferenceSet;
    StoredVehicle(w.db, w.agents[a], a);
    CellOf(w, t.write.vehicle);
    CellOf(w, w.agents[a].vehicle);
    CommitRefines(w.db, t, fault);
    ForeignCommitKeepsRun(w.db, db', a, w.agents[a]);
  }

  /** Touching one agent's run and transaction leaves the other agents' calls as they were. */
  lemma OtherCallsKeep(w: World, w': World, a: nat)
    requires CallsInv(w) && CallInv(w', a)
    requires forall b: nat | b != a && Agent(b) in w'.pending ::
               && Agent(b) in w.pending && w'.pending[Agent(b)] == w.pending[Agent(b)]
               && (b in w.agents ==> b in w'.agents && w'.agents[b] == w.agents[b])
    ensures CallsInv(w')
  {
    forall b: nat ensures CallInv(w', b) { assert CallInv(w, b); }
  }

  lemma OtherRunsKeep(w: World, w': World, a: nat)
    requires RunsInv(w) && w'.db == w.db && w'.agents.Keys == w.agents.Keys + {a}
    requires RunInv(w'.db, a, w'.agents[a])
    requires forall b | b in w.agents && b != a :: w'.agents[b] == w.agents[b]
    ensures RunsInv(w')
  {
  }

  lemma ManualBeginKeeps(w: World, s: Step)
    requires Inv(w) && s.ManualBegin?
    ensures Inv(Next(w, s))
  {
    hide StoreInv, OpenInv, CallsInv, RunsInv, CellInv, PendingInv, NormalizeValue, BeginTransaction;
    var w' := Next(w, s);
    if w' != w {
      var write := ServiceWrite(s.vehicle, s.property, s.zone, s.value, s.expected, Manual(s.id)).value;
      var t := BeginTransaction(w.db, write, s.read).value;
      BeginOnStored(w.db, write, s.read);
      CellOf(w, s.vehicle);
      BeginRefines(w.db, s.vehicle, s.property, s.zone, s.value, s.expected, Manual(s.id), s.read.value);
      QuietKeepsStore(w, w');
      OpeningKeepsOpen(w, Manual(s.id), t);
      SameAgentsKeep(w, w');
    }
  }

  lemma BeginOnStored(db: Db, write: Write, read: Option<nat>)
    requires BeginTransaction(db, write, read).Success?
    ensures read.Some? && Stored(db, write.vehicle)
  {
  }

  lemma OpeningKeepsOpen(w: World, id: RequestId, t: Pending)
    requires OpenInv(w) && PendingInv(w.db, t) && t.write.requestId == id
    ensures OpenInv(w.(pending := w.pending[id := t]))
  {
  }

  /** Transactions of manual writers do not touch the agents' runs and calls. */
  lemma SameAgentsKeep(w: World, w': World)
    requires CallsInv(w) && RunsInv(w) && w'.db == w.db && w'.agents == w.agents
    requires forall a: nat | Agent(a) in w'.pending :: Agent(a) in w.pending && w'.pending[Agent(a)] == w.pending[Agent(a)]
    ensures CallsInv(w') && RunsInv(w')
  {
    hide ExecutorWrite, RunInv;
    forall a: nat ensures CallInv(w', a) { assert CallInv(w, a); }
    forall a | a in w'.agents ensures RunInv(w'.db, a, w'.agents[a]) { assert RunInv(w.db, a, w.agents[a]); }
  }

  lemma CallOf(w: World, a: nat)
    requires CallsInv(w)
    ensures CallInv(w, a)
  {
  }

  lemma OpenOf(w: World, id: RequestId)
    requires OpenInv(w) && id in w.pending
    ensures PendingInv(w.db, w.pending[id]) && w.pending[id].write.requestId == id
  {
  }

  lemma ManualCommitKeeps(w: World, s: Step)
    requires Inv(w) && s.ManualCommit?
    ensures Inv(Next(w, s))
  {
    hide StoreInv, OpenInv, RunInv, PendingInv, CommitTransaction, ExecutorWrite;
    var w' := Next(w, s);
    if w' != w {
      var t := w.pending[Manual(s.id)];
      OpenOf(w, Manual(s.id));
      CommitKeepsStore(w, t, s.fault, w');
      CommitKeepsOpen(w, Manual(s.id), s.fault, w');
      forall a: nat ensures CallInv(w', a) { CallOf(w, a); }
      forall a | a in w'.agents ensures RunInv(w'.db, a, w'.agents[a]) {
        CommitKeepsOtherRun(w, t, s.fault, a);
      }
    }
  }

  lemma AgentLoadKeeps(w: World, s: Step)
    requires Inv(w) && s.AgentLoad?
    ensures Inv(Next(w, s))
  {
    hide StoreInv, OpenInv, CallsInv, RunsInv, CellInv, RunInv;
    var w' := Next(w, s);
    if w' != w {
      CellOf(w, s.vehicle);
      LoadStartsRun(w.db, s.a, s.vehicle, s.row);
      StartKeeps(w, w', s.a);
    }
  }

  lemma LoadStartsRun(db: Db, a: nat, vehicle: nat, row: nat)
    requires Stored(db, vehicle) && CellInv(vehicle, db[vehicle])
    ensures RunInv(db, a, Loaded(vehicle, RowAt(db[vehicle], row)))
  {
    var c := db[vehicle];
    assert RowOk(vehicle, c, if row < |c.history| then row else |c.history| - 1);
  }

  /** An agent without a call open gets a new run state; nothing else moves. */
  lemma StartKeeps(w: World, w': World, a: nat)
    requires Inv(w) && w'.db == w.db && w'.pending == w.pending
    requires a in w'.agents && w'.agents == w.agents[a := w'.agents[a]] && RunInv(w.db, a, w'.agents[a])
    requires a !in w.agents || (w.agents[a].Loaded? && w'.agents[a].vehicle == w.agents[a].vehicle)
    ensures Inv(w')
  {
    hide StoreInv, CallsInv, RunsInv, RunInv;
    NoCallOpen(w, a);
    QuietKeepsStore(w, w');
    OtherCallsKeep(w, w', a);
    OtherRunsKeep(w, w', a);
    assert OpenInv(w') by { hide PendingInv; }
  }

  lemma NoCallOpen(w: World, a: nat)
    requires CallsInv(w) && (a !in w.agents || w.agents[a].Loaded?)
    ensures Agent(a) !in w.pending
  {
    assert CallInv(w, a);
  }

  lemma {:induction false} AcceptedAreListed(plans: seq<ToolCallPlan>)
    ensures forall i :: 0 <= i < |AcceptedCommands(plans)| ==> Listed(AcceptedCommands(plans)[i])
  {
    if plans != [] { AcceptedAreListed(plans[..|plans| - 1]); }
  }

  lemma GateStartsRun(w: World, a: nat, run: AgentRun, run': AgentRun, plans: seq<ToolCallPlan>)
    requires StoreInv(w) && RunInv(w.db, a, run) && run.Loaded? && a in w.agents && w.agents[a] == run
    requires run'.Executing? && run'.vehicle == run.vehicle && run'.snapshot == run'.current == run.snapshot
    requires run'.commands == AcceptedCommands(plans) && run'.outcomes == []
    requires run'.actions == SafetyGate(run'.commands, run'.snapshot, run'.observed)
    ensures RunInv(w.db, a, run')
  {
    AcceptedAreListed(plans);
    var c := w.db[run.vehicle];
    assert CellInv(run.vehicle, c) && AuditInv(w, run.vehicle);
    assert RowOk(run.vehicle, c, run.snapshot.version);
  }

  lemma AgentGateKeeps(w: World, s: Step)
    requires Inv(w) && s.AgentGate?
    ensures Inv(Next(w, s))
  {
    hide StoreInv, OpenInv, CallsInv, RunsInv, RunInv, AcceptedCommands, SafetyGate;
    var w' := Next(w, s);
    if w' != w {
      RunOf(w, s.a);
      GateStartsRun(w, s.a, w.agents[s.a], w'.agents[s.a], s.plans);
      StartKeeps(w, w', s.a);
    }
  }

  lemma RunOf(w: World, a: nat)
    requires RunsInv(w) && a in w.agents
    ensures RunInv(w.db, a, w.agents[a])
  {
  }

  /** Why a call could not be started: never because the row moved on without the store showing it. */
  lemma StartCall(db: Db, a: nat, run: AgentRun, read: Option<nat>)
    requires HasNext(run) && Stored(db, run.vehicle) && CellInv(run.vehicle, db[run.vehicle])
    requires run.current.version < |db[run.vehicle].history|
    requires run.actions[|run.outcomes|].Authorized? && Listed(run.actions[|run.outcomes|].call.command)
    ensures var write := ExecutorWrite(run, run.actions[|run.outcomes|].call, a);
            write.Success? ==>
              var t := BeginTransaction(db, write.value, read);
              && (t.Success? ==> PendingInv(db, t.value) && t.value.write == write.value)
              && (t.Failure? && t.error.VersionConflict? && t.error.current > t.error.expected ==>
                    run.current.version + 1 < |db[run.vehicle].history|)
              && write.value.requestId == Agent(a)
  {
    var c := db[run.vehicle];
    var command := run.actions[|run.outcomes|].call.command;
    AcceptedMeansWritten(command);
    if read.Some? {
      assert RowOk(run.vehicle, c, if read.value < |c.history| then read.value else |c.history| - 1);
      if ExecutorWrite(run, run.actions[|run.outcomes|].call, a).Success? {
        BeginRefines(db, run.vehicle, command.property, command.zone, command.value,
                     run.current.version, Agent(a), read.value);
      }
    }
  }

  lemma BeginKeepsRun(w: World, a: nat, run: AgentRun, read: Option<nat>)
    requires RunInv(w.db, a, run) && HasNext(run) && CellInv(run.vehicle, w.db[run.vehicle])
    requires a in w.agents && w.agents[a] == run
    ensures var w' := BeginAction(w, a, run, read);
            a in w'.agents && RunInv(w.db, a, w'.agents[a])
  {
    hide ExecutorWrite, BeginTransaction, CellInv;
    var n := |run.outcomes|;
    match run.actions[n]
    case Rejected(decision) => PushKeepsRun(w.db, a, run, Blocked(decision.code));
    case Authorized(call) =>
      assert run.actions[n] == Authorize(run.commands[n], run.snapshot, run.observed);
      StartCall(w.db, a, run, read);
      var write := ExecutorWrite(run, call, a);
      var t := if write.Failure? then Failure(write.error) else BeginTransaction(w.db, write.value, read);
      if t.Failure? {
        if write.Failure? { RefusedForOtherReasons(run, call, a); }
        PushKeepsRun(w.db, a, run, Failed(t.error));
      }
  }

  lemma RefusedForOtherReasons(run: AgentRun, call: AuthorizedToolCall, a: nat)
    requires run.Executing? && ExecutorWrite(run, call, a).Failure?
    ensures !ExecutorWrite(run, call, a).error.VersionConflict?
  {
  }

  /** Starting an action touches one run and at most one transaction, which is then the call's own. */
  lemma BeginTouchesLittle(w: World, a: nat, run: AgentRun, read: Option<nat>)
    requires RunInv(w.db, a, run) && HasNext(run) && CellInv(run.vehicle, w.db[run.vehicle])
    requires a in w.agents && w.agents[a] == run && Agent(a) !in w.pending
    ensures var w' := BeginAction(w, a, run, read);
            && w'.db == w.db && w'.agents.Keys == w.agents.Keys
            && (forall b | b in w.agents && b != a :: w'.agents[b] == w.agents[b])
            && w'.agents[a].Executing? && w'.agents[a].vehicle == run.vehicle && w'.agents[a].observed == run.observed
            && (w'.pending == w.pending
                || (w'.agents == w.agents && Agent(a) in w'.pending
                    && w'.pending == w.pending[Agent(a) := w'.pending[Agent(a)]]
                    && PendingInv(w.db, w'.pending[Agent(a)])
                    && w'.pending[Agent(a)].write.requestId == Agent(a)))
            && CallInv(w', a)
  {
    hide ExecutorWrite, BeginTransaction, CellInv;
    if run.actions[|run.outcomes|].Authorized? {
      assert run.actions[|run.outcomes|]
        == Authorize(run.commands[|run.outcomes|], run.snapshot, run.observed);
      StartCall(w.db, a, run, read);
    }
  }

  lemma AgentBeginKeeps(w: World, s: Step)
    requires Inv(w) && s.AgentBegin?
    ensures Inv(Next(w, s))
  {
    hide RunInv, PendingInv, BeginAction, CellInv, AuditInv;
    var w' := Next(w, s);
    if w' != w {
      var run := w.agents[s.a];
      assert RunInv(w.db, s.a, run);
      StoredVehicle(w.db, run, s.a);
      BeginTouchesLittle(w, s.a, run, s.read);
      BeginKeepsRun(w, s.a, run, s.read);
      QuietKeepsStore(w, w');
      OtherCallsKeep(w, w', s.a);
      OtherRunsKeep(w, w', s.a);
    }
  }

  /** An authorized call is still safe on the row it is about to replace. */
  lemma AuthorizedIsSafe(db: Db, a: nat, run: AgentRun, t: Pending)
    requires RunInv(db, a, run) && HasNext(run) && CellInv(run.vehicle, db[run.vehicle]) && PendingInv(db, t)
    requires run.actions[|run.outcomes|].Authorized?
    requires ExecutorWrite(run, run.actions[|run.outcomes|].call, a) == Success(t.write)
    ensures t.write.requestId == Agent(a) && t.write.vehicle == run.vehicle && t.row == run.current
    ensures SafeOn(t.write.property, t.write.value, t.row) && !t.write.property.Gear?
    ensures OpensDoor(t.write.property, t.write.value) ==> SaidToStand(run.observed)
  {
    var c := db[run.vehicle];
    var command := run.commands[|run.outcomes|];
    assert run.actions[|run.outcomes|] == Authorize(command, run.snapshot, run.observed);
    AcceptedMeansWritten(command);
    assert RowOk(run.vehicle, c, run.current.version) && RowOk(run.vehicle, c, run.snapshot.version);
    ApprovalTransfers(command, run.snapshot, run.observed, run.current);
    GateDecides(command, run.snapshot, run.observed);
  }

  lemma OthersKeepRuns(w: World, t: Pending, fault: Fault, w': World, a: nat)
    requires RunsInv(w) && StoreInv(w) && PendingInv(w.db, t) && t.write.requestId == Agent(a)
    requires w'.db == CommitTransaction(w.db, t, fault).0 && w'.agents.Keys == w.agents.Keys + {a}
    requires forall b | b in w.agents && b != a :: w'.agents[b] == w.agents[b]
    requires RunInv(w'.db, a, w'.agents[a])
    ensures RunsInv(w')
  {
    forall b | b in w'.agents && b != a ensures RunInv(w'.db, b, w'.agents[b]) {
      CommitKeepsOtherRun(w, t, fault, b);
    }
  }

  lemma StoredVehicle(db: Db, run: AgentRun, a: nat)
    requires RunInv(db, a, run)
    ensures Stored(db, run.vehicle)
  {
  }

  lemma AgentCommitKeeps(w: World, s: Step)
    requires Inv(w) && s.AgentCommit?
    ensures Inv(Next(w, s))
  {
    hide StoreInv, OpenInv, CallsInv, RunsInv, RunInv, PendingInv, ExecutorWrite, CellInv, CommitTransaction;
    var w' := Next(w, s);
    if w' != w {
      var run, t := w.agents[s.a], w.pending[Agent(s.a)];
      CallOf(w, s.a);
      RunOf(w, s.a);
      OpenOf(w, Agent(s.a));
      StoredVehicle(w.db, run, s.a);
      CellOf(w, run.vehicle);
      AuthorizedIsSafe(w.db, s.a, run, t);
      CommitKeepsStore(w, t, s.fault, w');
      CommitKeepsOpen(w, Agent(s.a), s.fault, w');
      OtherCallsKeep(w, w', s.a);
      OwnCommitKeepsRun(w.db, s.a, run, t, s.fault);
      OthersKeepRuns(w, t, s.fault, w', s.a);
    }
  }

  lemma StepKeepsInv(w: World, s: Step)
    requires Inv(w)
    ensures Inv(Next(w, s))
  {
    match s
    case ManualBegin(_, _, _, _, _, _, _) => ManualBeginKeeps(w, s);
    case ManualCommit(_, _) => ManualCommitKeeps(w, s);
    case AgentLoad(_, _, _) => AgentLoadKeeps(w, s);
    case AgentGate(_, _, _) => AgentGateKeeps(w, s);
    case AgentBegin(_, _) => AgentBeginKeeps(w, s);
    case AgentCommit(_, _) => AgentCommitKeeps(w, s);
  }

  lemma {:induction false} RunKeepsInv(w: World, steps: seq<Step>)
    requires Inv(w)
    ensures Inv(Run(w, steps))
  {
    if steps != [] {
      RunKeepsInv(w, steps[..|steps| - 1]);
      StepKeepsInv(Run(w, steps[..|steps| - 1]), steps[|steps| - 1]);
    }
  }

  lemma InitialInv(w: World)
    requires Initial(w)
    ensures Inv(w)
  {
    hide PendingInv, RunInv, ExecutorWrite, ValidRow;
    forall v | v in w.db ensures CellInv(v, w.db[v]) && AuditInv(w, v) {}
  }
}
