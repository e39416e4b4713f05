/**
 The loops over the shared store, as they run: the adapter's transaction, the agent's `execute_tools` and the
 theme apply. Wherever the program waits, other clients may take any number of steps; the methods return,
 as a ghost, the run of the step system they took part in.
 */
module VehicleSystem {
  import opened Faults
  import opened Wrappers
  import opened VehicleProperties
  import opened SafetyPolicy
  import opened ToolRegistry
  import opened VehicleHal
  import opened AgentSystem
  import opened AgentGuarantees
  import opened AgentConflicts

  // ----- What the outside does -----

  /** What happens around one write: the steps of other clients before it and between its halves, the row the
      database shows it (`None` when storage fails), and how its commit fares. */
  datatype Turn = Turn(before: seq<Step>, read: Option<nat>, between: seq<Step>, fault: Fault)

  predicate Others(client: RequestId, steps: seq<Step>) { forall i :: 0 <= i < |steps| ==> Foreign(client, steps[i]) }

  predicate ByOthers(client: RequestId, turn: Turn) { Others(client, turn.before) && Others(client, turn.between) }

  /** A session shows no row older than the one it holds. */
  function SessionRead(read: Option<nat>, known: nat): Option<nat> {
    if read.Some? && read.value < known then Some(known) else read
  }

  /** The steps of one write in a turn: its begin, and if that opens a transaction, its commit. */
  function TurnSteps(w: World, client: RequestId, begin: Step, commit: Step, turn: Turn): seq<Step> {
    var begun := turn.before + [begin];
    if client in Run(w, begun).pending then begun + turn.between + [commit] else begun
  }

  /** The steps of an agent's next action; a rejected one only goes on record. */
  function ActionSteps(w: World, a: nat, turn: Turn): seq<Step> {
    if a !in w.agents || !HasNext(w.agents[a]) then [] else
    var run := w.agents[a];
    match run.actions[|run.outcomes|]
    case Rejected(_) => [AgentBegin(a, None)]
    case Authorized(call) =>
      if ExecutorWrite(run, call, a).Failure? then [AgentBegin(a, None)]
      else TurnSteps(w, Agent(a), AgentBegin(a, SessionRead(turn.read, run.current.version)),
                     AgentCommit(a, turn.fault), turn)
  }

  /** The steps of an agent's next n actions. */
  function ActionsSteps(w: World, a: nat, turns: seq<Turn>, n: nat): seq<Step>
    requires n <= |turns|
  {
    if n == 0 then [] else
    var before := ActionsSteps(w, a, turns, n - 1);
    before + ActionSteps(Run(w, before), a, turns[n - 1])
  }

  function ServiceSteps(w: World, id: nat, begin: Step, turn: Turn): seq<Step> {
    TurnSteps(w, Manual(id), begin, ManualCommit(id, turn.fault), turn)
  }

  /** Why a read that expects a version is refused: storage, no such vehicle, or another row. */
  function ReadRefusal(db: Db, vehicle: nat, expected: int, read: Option<nat>): Option<VehicleError> {
    if read.None? then Some(Storage)
    else if !Stored(db, vehicle) then Some(NotFound)
    else
      var row := RowAt(db[vehicle], read.value);
      if row.version != expected then Some(VersionConflict(expected, row.version)) else None
  }

  /** Why a commit on that version is refused or seems to be: storage, another row by now, or a lost reply. */
  function CommitRefusal(db: Db, vehicle: nat, expected: int, fault: Fault): Option<VehicleError> {
    if fault.LostBefore? || !Stored(db, vehicle) then Some(Storage)
    else if Latest(db[vehicle]).version != expected then Some(VersionConflict(expected, Latest(db[vehicle]).version))
    else if fault.LostAfter? then Some(Storage) else None
  }

  /** Why a write fails in its turn, if it does. */
  function Refusal(w: World, vehicle: nat, expected: int, begin: Step, turn: Turn): Option<VehicleError> {
    var w1 := Run(w, turn.before);
    var why := ReadRefusal(w1.db, vehicle, expected, turn.read);
    if why.Some? then why
    else CommitRefusal(Run(Next(w1, begin), turn.between).db, vehicle, expected, turn.fault)
  }

  function ZoneBegin(id: nat, vehicle: nat, zone: Zone, temperature: real, version: int, read: Option<nat>): Step {
    ManualBegin(id, vehicle, if zone.Driver? then DriverTemp else PassengerTemp, Some(zone), Num(temperature), version, read)
  }

  /** A theme in two turns: its result, how many temperatures it was told of, and its steps. */
  function ThemeTurns(w: World, id: nat, vehicle: nat, temperature: real, version: int, driver: Turn, passenger: Turn)
    : (Result<int, VehicleError>, nat, seq<Step>)
  {
    if !(16.0 <= temperature <= 30.0) then (Failure(Invalid(InvalidPropertyValue)), 0, []) else
    var begin := ZoneBegin(id, vehicle, Driver, temperature, version, driver.read);
    var first := ServiceSteps(w, id, begin, driver);
    var why := Refusal(w, vehicle, version, begin, driver);
    if why.Some? then (Failure(why.value), 0, first) else
    var begin' := ZoneBegin(id, vehicle, Passenger, temperature, version + 1, passenger.read);
    var second := ServiceSteps(Run(w, first), id, begin', passenger);
    var why' := Refusal(Run(w, first), vehicle, version + 1, begin', passenger);
    if why'.Some? then (Failure(why'.value), 1, first + second) else (Success(version + 2), 2, first + second)
  }

  class System {
    var db: Db
    var pending: map<RequestId, Pending>
    var agents: map<nat, AgentRun>

    function View(): World
      reads this
    {
      World(db, pending, agents)
    }

    /** The program waits; the steps of other clients happen. */
    method Wait(client: RequestId, others: seq<Step>)
      requires Others(client, others)
      modifies this
      ensures View() == Run(old(View()), others)
      ensures SameClient(client, old(View()), View())
    {
      for i := 0 to |others|
        invariant View() == Run(old(View()), others[..i])
        invariant SameClient(client, old(View()), View())
      {
        ghost var before := View();
        ForeignKeepsClient(client, before, others[i]);
        var w := Next(World(db, pending, agents), others[i]);
        db, pending, agents := w.db, w.pending, w.agents;
        RunThenStep(old(View()), others[..i], others[i]);
        assert others[..i + 1] == others[..i] + [others[i]];
      }
      assert others[..|others|] == others;
    }

    /** Lines up to the compare-and-set: fetch, check the version, prepare. */
    method SelectAndPrepare(w: Write, read: Option<nat>) returns (r: Result<Pending, VehicleError>)
      ensures r == BeginTransaction(db, w, read)
    {
      if read.None? { return Failure(Storage); }
      if w.vehicle !in db || db[w.vehicle].history == [] { return Failure(NotFound); }
      var row := RowAt(db[w.vehicle], read.value);
      if row.version != w.expected { return Failure(VersionConflict(w.expected, row.version)); }
      var prior := ReadProperty(row, w.property, w.zone);
      if prior.Failure? { return Failure(Invalid(prior.error)); }
      var candidate := ApplyProperty(row, w.property, w.zone, w.value);
      if candidate.Failure? { return Failure(Invalid(candidate.error)); }
      return Success(Pending(w, row, candidate.value, prior.value));
    }

    /** The compare-and-set, the audit append and the commit. */
    method UpdateAndAudit(t: Pending, fault: Fault) returns (r: Result<Change, VehicleError>)
      requires Stored(db, t.write.vehicle)
      modifies this`db
      ensures (db, r) == CommitTransaction(old(db), t, fault)
    {
      var c := db[t.write.vehicle];
      if fault.LostBefore? { return Failure(Storage); }
      var stored := c.history[|c.history| - 1];
      if stored.version != t.row.version {
        return Failure(VersionConflict(t.write.expected, stored.version));
      }
      var updated := UpdateColumns(stored, t.candidate, t.row.version + 1);
      var audited := AuditRow(t.write.requestId, t.write.property, t.write.zone, t.oldValue, t.write.value,
                              t.row.version + 1);
      db := db[t.write.vehicle := Cell(c.history + [updated], c.audit + [audited])];
      if fault.LostAfter? { return Failure(Storage); }
      return Success(Change(updated, t.write.property, t.write.zone, t.oldValue, t.write.value));
    }

    /** The whole transaction, in its turn. Other clients run before it and between its two halves; storage may
        fail at the read, before the commit takes effect, or after. */
    method SetProperty(w: Write, known: nat, turn: Turn) returns (r: Result<Change, VehicleError>)
      requires w.requestId !in pending && ByOthers(w.requestId, turn)
      modifies this
      ensures var w1 := Run(old(View()), turn.before);
              var t := BeginTransaction(w1.db, w, SessionRead(turn.read, known));
              SameClient(w.requestId, old(View()), w1)
              && (t.Failure? ==> r == Failure(t.error) && View() == w1)
              && (t.Success? ==>
                    var w2 := Run(w1.(pending := w1.pending[w.requestId := t.value]), turn.between);
                    && SameClient(w.requestId, w1.(pending := w1.pending[w.requestId := t.value]), w2)
                    && Stored(w2.db, w.vehicle) && t.value.write == w
                    && var (db', r') := CommitTransaction(w2.db, t.value, turn.fault);
                       r == r' && View() == w2.(db := db', pending := w2.pending - {w.requestId}))
    {
      Wait(w.requestId, turn.before);
      var t := SelectAndPrepare(w, SessionRead(turn.read, known));
      if t.Failure? { return Failure(t.error); }
      pending := pending[w.requestId := t.value];
      ghost var atOpen := View();
      Wait(w.requestId, turn.between);
      RunExtends(atOpen, turn.between);
      r := UpdateAndAudit(t.value, turn.fault);
      pending := pending - {w.requestId};
    }

    /** The executor and the recording of its result: one approved call. */
    method Execute(a: nat, call: AuthorizedToolCall, turn: Turn)
      returns (status: Status, next: VehicleState, ghost trace: seq<Step>)
      requires a in agents && HasNext(agents[a]) && Agent(a) !in pending && ByOthers(Agent(a), turn)
      requires agents[a].actions[|agents[a].outcomes|] == Authorized(call)
      requires agents[a].commands[|agents[a].outcomes|] == call.command
      modifies this
      ensures trace == ActionSteps(old(View()), a, turn)
      ensures View() == Run(old(View()), trace) && SessionReads(old(View()), trace, a)
      ensures a in agents && Agent(a) !in pending
      ensures agents[a] == old(agents[a]).(
                outcomes := old(agents[a]).outcomes + [Outcome(call.command, status)], current := next)
    {
      hide CommitTransaction, BeginTransaction, NormalizeValue, Run, Foreign, SessionReads;
      var run := agents[a];
      next := run.current;
      var write := ExecutorWrite(run, call, a);
      if write.Failure? {
        status := Failed(write.error);
        agents := agents[a := Push(run, call.command, status)];
        trace := [AgentBegin(a, None)];
        RunOne(old(View()), trace[0]);
        OneRead(old(View()), trace[0], a);
        return;
      }
      ghost var start, read := View(), SessionRead(turn.read, run.current.version);
      var r := SetProperty(write.value, run.current.version, turn);
      ghost var w1 := Run(start, turn.before);
      ghost var t := VehicleHal.BeginTransaction(w1.db, write.value, read);
      RunThenStep(start, turn.before, AgentBegin(a, read));
      CallReads(start, turn, read, a);
      trace := turn.before + [AgentBegin(a, read)];
      assert w1.agents[a] == run && Agent(a) !in w1.pending;
      assert Next(w1, AgentBegin(a, read)) == BeginAction(w1, a, run, read);
      if t.Success? {
        RunInParts(start, trace, turn.between);
        RunThenStep(start, trace + turn.between, AgentCommit(a, turn.fault));
        trace := trace + turn.between + [AgentCommit(a, turn.fault)];
      }
      if r.Success? {
        next := r.value.state;
        status := Done(r.value.newValue, next.version);
      } else {
        status := Failed(r.error);
      }
      agents := agents[a := run.(outcomes := run.outcomes + [Outcome(call.command, status)], current := next)];
      if t.Success? {
        ghost var w2 := Run(w1.(pending := w1.pending[Agent(a) := t.value]), turn.between);
        assert Next(w2, AgentCommit(a, turn.fault)) == View();
      }
    }

    /** Every action in its turn: a rejected one is recorded as blocked, an approved one is executed against the
        version of the last row this run got back. */
    method ExecuteTools(a: nat, turns: seq<Turn>)
      returns (outcomes: seq<Outcome>, current: VehicleState, ghost trace: seq<Step>)
      requires a in agents && agents[a].Executing? && Aligned(agents[a]) && agents[a].outcomes == []
      requires |turns| == |agents[a].actions| && forall i :: 0 <= i < |turns| ==> ByOthers(Agent(a), turns[i])
      requires Agent(a) !in pending
      modifies this
      ensures trace == ActionsSteps(old(View()), a, turns, |turns|)
      ensures View() == Run(old(View()), trace) && SessionReads(old(View()), trace, a)
      ensures old(Inv(View())) ==> Inv(View())
      ensures a in agents && agents[a] == old(agents[a]).(outcomes := outcomes, current := current)
      ensures |outcomes| == |old(agents[a]).actions|
    {
      hide RunInv, StoreInv, OpenInv, CallsInv, RunsInv, Next, Aligned, SafetyGate, CommitTransaction, ExecutorWrite;
      hide ActionsSteps, ActionSteps, SessionReads, Run, ByOthers;
      var run := agents[a];
      outcomes, current, trace := [], run.current, [];
      NoActionYet(View(), a, turns);
      AuthorizedInPlace(run);
      while |outcomes| < |run.actions|
        invariant |outcomes| <= |run.actions|
        invariant trace == ActionsSteps(old(View()), a, turns, |outcomes|)
        invariant View() == Run(old(View()), trace) && SessionReads(old(View()), trace, a)
        invariant a in agents && agents[a] == run.(outcomes := outcomes, current := current)
        invariant Agent(a) !in pending
      {
        ghost var start, done := View(), trace;
        var n := |outcomes|;
        OneMoreAction(old(View()), a, turns, n);
        match run.actions[n]
        case Rejected(decision) =>
          var command := run.commands[|outcomes|];
          outcomes := outcomes + [Outcome(command, Blocked(decision.code))];
          agents := agents[a := run.(outcomes := outcomes, current := current)];
          BlockedStep(start, a, turns[n]);
          RunInParts(old(View()), done, [AgentBegin(a, None)]);
          OneRead(start, AgentBegin(a, None), a);
          SessionInParts(old(View()), done, [AgentBegin(a, None)], a);
          trace := done + [AgentBegin(a, None)];
        case Authorized(call) =>
          var status, next, more := Execute(a, call, turns[n]);
          outcomes := outcomes + [Outcome(call.command, status)];
          current := next;
          RunInParts(old(View()), done, more);
          SessionInParts(old(View()), done, more, a);
          trace := done + more;
      }
      if old(Inv(View())) { RunKeepsInv(old(View()), trace); }
    }

    /** A write through the service by a client that is not the agent: manual control and the theme apply. */
    method WriteThroughService(
      id: nat, vehicle: nat, p: Property, zone: Option<Zone>, value: Value, expected: int, turn: Turn)
      returns (r: Result<Change, VehicleError>, ghost trace: seq<Step>)
      requires Inv(View()) && Manual(id) !in pending && ByOthers(Manual(id), turn)
      modifies this
      ensures View() == Run(old(View()), trace) && Inv(View()) && Manual(id) !in pending
      ensures r.Success? ==>
                && NormalizeValue(p, zone, value).Success?
                && var (zone', value') := NormalizeValue(p, zone, value).value;
                && Committed(db, vehicle, expected, Manual(id), p, zone', value')
                && r.value == Change(db[vehicle].history[expected + 1], p, zone', db[vehicle].audit[expected].oldValue, value')
      ensures NormalizeValue(p, zone, value).Failure? ==>
                r == Failure(Invalid(NormalizeValue(p, zone, value).error)) && trace == []
      ensures NormalizeValue(p, zone, value).Success? ==>
                var begin := ManualBegin(id, vehicle, p, zone, value, expected, turn.read);
                var why := Refusal(old(View()), vehicle, expected, begin, turn);
                && trace == ServiceSteps(old(View()), id, begin, turn)
                && (if why.Some? then r == Failure(why.value) else r.Success?)
    {
      hide CommitTransaction, NormalizeValue, RunInv, PendingInv, StoreInv, OpenInv, CallsInv, RunsInv, Committed;
      trace := [];
      var write := ServiceWrite(vehicle, p, zone, value, expected, Manual(id));
      InvalidIsRefused(vehicle, p, zone, value, expected, id);
      NoSteps(View());
      hide Next, BeginTransaction, ServiceWrite, Run, Foreign, ReadRefusal, CommitRefusal, Inv;
      if write.Failure? { return Failure(write.error), trace; }
      AddressesVehicle(vehicle, p, zone, value, expected, id);
      ghost var start := View();
      r := SetProperty(write.value, 0, turn);
      ghost var begin := ManualBegin(id, vehicle, p, zone, value, expected, turn.read);
      ghost var w1 := Run(start, turn.before);
      ghost var t := VehicleHal.BeginTransaction(w1.db, write.value, turn.read);
      RunKeepsInv(start, turn.before);
      BeginAnswers(w1, vehicle, p, zone, value, expected, id, turn.read);
      BeginStep(w1, id, vehicle, p, zone, value, expected, turn.read);
      RunThenStep(start, turn.before, begin);
      trace := turn.before + [begin];
      if t.Success? {
        ghost var w2 := Run(w1.(pending := w1.pending[Manual(id) := t.value]), turn.between);
        RunInParts(start, trace, turn.between);
        RunThenStep(start, trace + turn.between, ManualCommit(id, turn.fault));
        RunKeepsInv(start, trace + turn.between);
        CommitIsVisible(w2, t.value, turn.fault);
        CommitStep(w2, id, t.value, turn.fault);
        trace := trace + turn.between + [ManualCommit(id, turn.fault)];
      }
      RunKeepsInv(start, trace);
    }

    /** One zone of a theme: validate, pass the gate, write. */
    method ApplyZone(
      id: nat, vehicle: nat, state: VehicleState, zone: Zone, temperature: real, version: int, turn: Turn)
      returns (r: Result<VehicleState, VehicleError>, ghost trace: seq<Step>)
      requires Inv(View()) && Manual(id) !in pending && zone != Global && ByOthers(Manual(id), turn)
      modifies this
      ensures View() == Run(old(View()), trace) && Inv(View()) && Manual(id) !in pending
      ensures r.Success? ==>
                && Committed(db, vehicle, version, Manual(id), if zone.Driver? then DriverTemp else PassengerTemp,
                             Some(zone), Num(temperature))
                && r.value == db[vehicle].history[version + 1]
      ensures !(16.0 <= temperature <= 30.0) ==> r == Failure(Invalid(InvalidPropertyValue)) && trace == []
      ensures 16.0 <= temperature <= 30.0 ==>
                var begin := ZoneBegin(id, vehicle, zone, temperature, version, turn.read);
                var why := Refusal(old(View()), vehicle, version, begin, turn);
                && trace == ServiceSteps(old(View()), id, begin, turn)
                && (if why.Some? then r == Failure(why.value) else r.Success?)
    {
      hide RunInv, PendingInv, Next, StoreInv, OpenInv, CallsInv, RunsInv, Refusal, ServiceSteps;
      trace := [];
      var command := Validate(SetTemperature(zone, temperature));
      if command.Failure? { return Failure(Invalid(InvalidPropertyValue)), trace; }
      var permit := Authorize(command.value, state, None);
      if permit.Rejected? { return Failure(NotPermitted), trace; }
      var c := permit.call.command;
      var change;
      change, trace := WriteThroughService(id, vehicle, c.property, c.zone, c.value, version, turn);
      if change.Failure? { return Failure(change.error), trace; }
      return Success(change.value.state), trace;
    }

    /** Theme apply: both temperatures, the second write expecting the version the first one produced. `read` is
        the row the first look at the vehicle finds. Success is exactly two adjacent commits; a failure after the
        first leaves that one in place. */
    method ApplyTheme(id: nat, vehicle: nat, temperature: real, expectedVersion: int,
                      before: seq<Step>, read: Option<nat>, driver: Turn, passenger: Turn)
      returns (r: Result<int, VehicleError>, applied: nat, ghost trace: seq<Step>)
      requires Inv(View()) && Manual(id) !in pending
      requires Others(Manual(id), before) && ByOthers(Manual(id), driver) && ByOthers(Manual(id), passenger)
      modifies this
      ensures View() == Run(old(View()), trace) && Inv(View())
      ensures applied <= 2 && (r.Success? <==> applied == 2)
      ensures applied >= 1 ==>
                Committed(db, vehicle, expectedVersion, Manual(id), DriverTemp, Some(Driver), Num(temperature))
      ensures r.Success? ==>
                && r.value == expectedVersion + 2
                && Committed(db, vehicle, expectedVersion + 1, Manual(id), PassengerTemp, Some(Passenger), Num(temperature))
                && var h := db[vehicle].history;
                   h[r.value] == h[expectedVersion].(climate := Zoned(Num(temperature), Num(temperature)),
                                                     version := r.value)
      // Its answer and its steps, exactly.
      ensures var w := Run(old(View()), before);
              if read.None? || !Stored(w.db, vehicle) then
                r == Failure(if read.None? then Storage else NotFound) && trace == before
              else
                var turns := ThemeTurns(w, id, vehicle, temperature, expectedVersion, driver, passenger);
                r == turns.0 && applied == turns.1 && trace == before + turns.2
    {
      hide RunInv, PendingInv, Next, StoreInv, OpenInv, CallsInv, RunsInv, Committed, Refusal, ServiceSteps;
      hide Run, ThemeTurns, ThemeSoFar, Foreign, ZoneBegin, Authorize, ByOthers;
      ghost var start := View();
      applied := 0;
      Wait(Manual(id), before);
      trace := before;
      RunKeepsInv(start, trace);
      if read.None? { return Failure(Storage), applied, trace; }
      if vehicle !in db || db[vehicle].history == [] { return Failure(NotFound), applied, trace; }
      var state := RowAt(db[vehicle], read.value);
      ghost var w := View();
      ghost var steps: seq<Step> := [];
      NothingApplied(w, id, vehicle, temperature, expectedVersion, driver, passenger);
      var zones, turns := [Driver, Passenger], [driver, passenger];
      var version := expectedVersion;
      while applied < |zones|
        invariant applied <= 2 && version == expectedVersion + applied
        invariant trace == before + steps && View() == Run(w, steps)
        invariant Inv(View()) && Manual(id) !in pending
        invariant ThemeSoFar(w, id, vehicle, temperature, expectedVersion, driver, passenger, applied, steps)
        invariant applied >= 1 ==>
                    Committed(db, vehicle, expectedVersion, Manual(id), DriverTemp, Some(Driver), Num(temperature))
        invariant applied >= 2 ==>
                    Committed(db, vehicle, expectedVersion + 1, Manual(id), PassengerTemp, Some(Passenger), Num(temperature))
      {
        ghost var now := View();
        var written, more := ApplyZone(id, vehicle, state, zones[applied], temperature, version, turns[applied]);
        ThemeGoesOn(w, id, vehicle, temperature, expectedVersion, driver, passenger, applied, steps, more, written);
        RunInParts(w, steps, more);
        RunExtends(now, more);
        steps, trace := steps + more, before + (steps + more);
        RunInParts(start, before, steps);
        if applied == 1 {
          CommittedStays(now, View(), vehicle, expectedVersion, Manual(id), DriverTemp, Some(Driver), Num(temperature));
        }
        if written.Failure? { return Failure(written.error), applied, trace; }
        CommittedVersion(db, vehicle, version, Manual(id), if zones[applied].Driver? then DriverTemp else PassengerTemp,
                         Some(zones[applied]), Num(temperature));
        state := written.value;
        version := state.version;
        applied := applied + 1;
      }
      BothApplied(w, id, vehicle, temperature, expectedVersion, driver, passenger, steps);
      RunInParts(start, before, steps);
      BothZones(db, vehicle, expectedVersion, id, temperature);
      return Success(version), applied, trace;
    }
  }

  lemma NothingApplied(w: World, id: nat, vehicle: nat, temperature: real, version: int, driver: Turn, passenger: Turn)
    ensures ThemeSoFar(w, id, vehicle, temperature, version, driver, passenger, 0, []) && Run(w, []) == w
  {
  }

  lemma BothApplied(w: World, id: nat, vehicle: nat, temperature: real, version: int, driver: Turn, passenger: Turn,
                    steps: seq<Step>)
    requires ThemeSoFar(w, id, vehicle, temperature, version, driver, passenger, 2, steps)
    ensures ThemeTurns(w, id, vehicle, temperature, version, driver, passenger) == (Success(version + 2), 2, steps)
  {
  }

  /** One call reads once, and no row older than the run's own. */
  lemma CallReads(w: World, turn: Turn, read: Option<nat>, a: nat)
    requires a in w.agents && SameClient(Agent(a), w, Run(w, turn.before)) && ByOthers(Agent(a), turn)
    requires w.agents[a].Executing? && (read.Some? ==> read.value >= w.agents[a].current.version)
    ensures SessionReads(w, turn.before + [AgentBegin(a, read)], a)
    ensures SessionReads(w, turn.before + [AgentBegin(a, read)] + turn.between + [AgentCommit(a, turn.fault)], a)
  {
    hide Run, SessionReads;
    OthersReadElsewhere(w, turn.before, a);
    OneRead(Run(w, turn.before), AgentBegin(a, read), a);
    SessionInParts(w, turn.before, [AgentBegin(a, read)], a);
    var begun := turn.before + [AgentBegin(a, read)];
    OthersReadElsewhere(Run(w, begun), turn.between, a);
    SessionInParts(w, begun, turn.between, a);
    OneRead(Run(w, begun + turn.between), AgentCommit(a, turn.fault), a);
    SessionInParts(w, begun + turn.between, [AgentCommit(a, turn.fault)], a);
  }

  /** Reaching a rejected action records it as blocked, nothing else. */
  lemma BlockedStep(w: World, a: nat, turn: Turn)
    requires a in w.agents && HasNext(w.agents[a]) && Agent(a) !in w.pending
    requires w.agents[a].actions[|w.agents[a].outcomes|].Rejected?
    ensures var run := w.agents[a];
            var n := |run.outcomes|;
            && ActionSteps(w, a, turn) == [AgentBegin(a, None)]
            && Run(w, [AgentBegin(a, None)])
            == w.(agents := w.agents[a := run.(outcomes := run.outcomes
                    + [Outcome(run.commands[n], Blocked(run.actions[n].decision.code))])])
  {
    RunOne(w, AgentBegin(a, None));
  }

  lemma NoActionYet(w: World, a: nat, turns: seq<Turn>)
    ensures ActionsSteps(w, a, turns, 0) == [] && Run(w, []) == w && SessionReads(w, [], a)
  {
  }

  lemma OneMoreAction(w: World, a: nat, turns: seq<Turn>, n: nat)
    requires n < |turns|
    ensures var before := ActionsSteps(w, a, turns, n);
            ActionsSteps(w, a, turns, n + 1) == before + ActionSteps(Run(w, before), a, turns[n])
  {
  }

  /** A theme so far: nothing done, the driver's zone done, or both. */
  predicate ThemeSoFar(w: World, id: nat, vehicle: nat, temperature: real, version: int, driver: Turn, passenger: Turn,
                       applied: nat, steps: seq<Step>)
  {
    match applied
    case 0 => steps == []
    case 1 =>
      var begin := ZoneBegin(id, vehicle, Driver, temperature, version, driver.read);
      && 16.0 <= temperature <= 30.0 && Refusal(w, vehicle, version, begin, driver).None?
      && steps == ServiceSteps(w, id, begin, driver)
    case _ => ThemeTurns(w, id, vehicle, temperature, version, driver, passenger) == (Success(version + 2), 2, steps)
  }

  /** What a zone's answer means for the theme. */
  lemma ThemeGoesOn(w: World, id: nat, vehicle: nat, temperature: real, version: int, driver: Turn, passenger: Turn,
                    applied: nat, steps: seq<Step>, more: seq<Step>, answer: Result<VehicleState, VehicleError>)
    requires applied < 2 && ThemeSoFar(w, id, vehicle, temperature, version, driver, passenger, applied, steps)
    requires !(16.0 <= temperature <= 30.0) ==> answer == Failure(Invalid(InvalidPropertyValue)) && more == []
    requires 16.0 <= temperature <= 30.0 ==>
               var zone, turn := [Driver, Passenger][applied], [driver, passenger][applied];
               var begin := ZoneBegin(id, vehicle, zone, temperature, version + applied, turn.read);
               var why := Refusal(Run(w, steps), vehicle, version + applied, begin, turn);
               && more == ServiceSteps(Run(w, steps), id, begin, turn)
               && (if why.Some? then answer == Failure(why.value) else answer.Success?)
    ensures answer.Success? ==>
              ThemeSoFar(w, id, vehicle, temperature, version, driver, passenger, applied + 1, steps + more)
    ensures answer.Failure? ==>
              ThemeTurns(w, id, vehicle, temperature, version, driver, passenger)
              == (Failure(answer.error), applied, steps + more)
  {
    hide Refusal, ServiceSteps, ZoneBegin;
    if applied == 0 {
      assert steps + more == more && Run(w, []) == w;
    }
  }

  lemma AuthorizedInPlace(run: AgentRun)
    requires run.Executing? && Aligned(run)
    ensures |run.outcomes| <= |run.actions| == |run.commands|
    ensures forall i :: 0 <= i < |run.actions| && run.actions[i].Authorized? ==>
              run.actions[i].call.command == run.commands[i]
  {
  }

  /** A client's write, committed as version `at + 1` on top of version `at`. */
  ghost predicate Committed(db: Db, vehicle: nat, at: int, id: RequestId, p: Property, zone: Option<Zone>, v: Value) {
    && vehicle in db && 0 <= at < |db[vehicle].audit| && |db[vehicle].history| == |db[vehicle].audit| + 1
    && var a := db[vehicle].audit[at];
    && a.requestId == id && a.property == p && a.zone == zone && a.newValue == v
    && Follows(db[vehicle].history[at], a, db[vehicle].history[at + 1])
    && db[vehicle].history[at + 1].version == at + 1
  }

  lemma CommittedVersion(db: Db, vehicle: nat, at: int, id: RequestId, p: Property, zone: Option<Zone>, v: Value)
    requires Committed(db, vehicle, at, id, p, zone, v)
    ensures vehicle in db && 0 <= at && at + 1 < |db[vehicle].history| && db[vehicle].history[at + 1].version == at + 1
  {
  }

  lemma CommitIsVisible(w: World, t: Pending, fault: Fault)
    requires Inv(w) && t.write.requestId in w.pending && w.pending[t.write.requestId] == t
    ensures Stored(w.db, t.write.vehicle)
    ensures var (db', r) := CommitTransaction(w.db, t, fault);
            r.Success? ==>
              && Committed(db', t.write.vehicle, t.write.expected, t.write.requestId,
                           t.write.property, t.write.zone, t.write.value)
              && r.value == Change(db'[t.write.vehicle].history[t.write.expected + 1], t.write.property, t.write.zone,
                                   db'[t.write.vehicle].audit[t.write.expected].oldValue, t.write.value)
    ensures var r := CommitTransaction(w.db, t, fault).1;
            var why := CommitRefusal(w.db, t.write.vehicle, t.write.expected, fault);
            if why.Some? then r == Failure(why.value) else r.Success?
  {
    hide StoreInv, OpenInv, CallsInv, RunsInv;
    OpenOf(w, t.write.requestId);
    PendingIsStored(w.db, t);
    CellOf(w, t.write.vehicle);
    CommitShows(w.db, t, fault);
  }

  lemma CommitShows(db: Db, t: Pending, fault: Fault)
    requires PendingInv(db, t) && CellInv(t.write.vehicle, db[t.write.vehicle])
    ensures var (db', r) := CommitTransaction(db, t, fault);
            && (r.Success? ==>
                  && Committed(db', t.write.vehicle, t.write.expected, t.write.requestId,
                               t.write.property, t.write.zone, t.write.value)
                  && r.value == Change(db'[t.write.vehicle].history[t.write.expected + 1], t.write.property, t.write.zone,
                                       db'[t.write.vehicle].audit[t.write.expected].oldValue, t.write.value))
            && var why := CommitRefusal(db, t.write.vehicle, t.write.expected, fault);
               if why.Some? then r == Failure(why.value) else r.Success?
  {
    var v := t.write.vehicle;
    var c := db[v];
    assert RowOk(v, c, |c.history| - 1) && RowOk(v, c, t.row.version);
    CommitRefines(db, t, fault);
    var (db', r) := CommitTransaction(db, t, fault);
    if r.Success? {
      hide ReferenceSet, ReadProperty, ApplyProperty, UpdateColumns;
      assert Follows(db'[v].history[|c.audit|], db'[v].audit[|c.audit|], db'[v].history[|c.audit| + 1]);
      assert RowOk(v, db'[v], |c.history|);
    }
  }

  lemma BeginAnswers(w: World, vehicle: nat, p: Property, zone: Option<Zone>, value: Value, expected: int, id: nat,
                      read: Option<nat>)
    requires Inv(w) && ServiceWrite(vehicle, p, zone, value, expected, Manual(id)).Success?
    ensures var t := BeginTransaction(w.db, ServiceWrite(vehicle, p, zone, value, expected, Manual(id)).value, read);
            var why := ReadRefusal(w.db, vehicle, expected, read);
            if why.Some? then t == Failure(why.value) else t.Success?
  {
    hide RunInv, PendingInv;
    if vehicle in w.db {
      assert CellInv(vehicle, w.db[vehicle]);
      if read.Some? { BeginRefines(w.db, vehicle, p, zone, value, expected, Manual(id), read.value); }
    }
  }

  lemma CommittedStays(w: World, w': World, vehicle: nat, at: int, id: RequestId, p: Property, zone: Option<Zone>, v: Value)
    requires Committed(w.db, vehicle, at, id, p, zone, v) && Extends(w.db, w'.db) && Inv(w')
    ensures Committed(w'.db, vehicle, at, id, p, zone, v)
  {
    hide RunInv, PendingInv;
    var c, c' := w.db[vehicle], w'.db[vehicle];
    assert CellInv(vehicle, c');
    assert c'.audit[at] == c.audit[at] && c'.history[at] == c.history[at] && c'.history[at + 1] == c.history[at + 1];
  }

  lemma BothZones(db: Db, vehicle: nat, at: int, id: nat, temperature: real)
    requires Committed(db, vehicle, at, Manual(id), DriverTemp, Some(Driver), Num(temperature))
    requires Committed(db, vehicle, at + 1, Manual(id), PassengerTemp, Some(Passenger), Num(temperature))
    ensures vehicle in db && 0 <= at && at + 2 < |db[vehicle].history|
    ensures db[vehicle].history[at + 2]
            == db[vehicle].history[at].(climate := Zoned(Num(temperature), Num(temperature)), version := at + 2)
  {
  }

  // ----- Half a theme -----

  /** A service write that reads the expected row, then commits, with no other step in between and no fault. */
  function WriteNow(w: World, id: nat, vehicle: nat, p: Property, zone: Option<Zone>, value: Value, expected: nat): World {
    Next(Next(w, ManualBegin(id, vehicle, p, zone, value, expected, Some(expected))), ManualCommit(id, NoFault))
  }

  /** Such a write commits if and only if the expected row is still the latest; otherwise nothing is stored. */
  lemma WriteNowCommitsIff(w: World, id: nat, vehicle: nat, p: Property, zone: Option<Zone>, value: Value, expected: nat)
    requires Inv(w) && Stored(w.db, vehicle) && Manual(id) !in w.pending && NormalizeValue(p, zone, value).Success?
    ensures var w' := WriteNow(w, id, vehicle, p, zone, value, expected);
            var (zone', value') := NormalizeValue(p, zone, value).value;
            && Inv(w') && w'.pending == w.pending && Extends(w.db, w'.db) && Stored(w'.db, vehicle)
            && (if Latest(w.db[vehicle]).version == expected
                then Committed(w'.db, vehicle, expected, Manual(id), p, zone', value')
                     && Latest(w'.db[vehicle]).version == expected + 1
                else w'.db == w.db)
  {
    hide StoreInv, OpenInv, CallsInv, RunsInv, NormalizeValue, Next, Committed, Run, CellInv;
    var begin := ManualBegin(id, vehicle, p, zone, value, expected, Some(expected));
    var w1 := Next(w, begin);
    StepKeepsInv(w, begin);
    StepKeepsInv(w1, ManualCommit(id, NoFault));
    NextExtends(w, begin);
    NextExtends(w1, ManualCommit(id, NoFault));
    CellOf(w, vehicle);
    WriteNowSteps(w, id, vehicle, p, zone, value, expected);
  }

  lemma BeginStep(w: World, id: nat, vehicle: nat, p: Property, zone: Option<Zone>, value: Value, expected: int,
                  read: Option<nat>)
    requires Manual(id) !in w.pending && ServiceWrite(vehicle, p, zone, value, expected, Manual(id)).Success?
    ensures var write := ServiceWrite(vehicle, p, zone, value, expected, Manual(id)).value;
            var t := BeginTransaction(w.db, write, read);
            Next(w, ManualBegin(id, vehicle, p, zone, value, expected, read))
            == if t.Failure? then w else w.(pending := w.pending[Manual(id) := t.value])
  {
    hide BeginTransaction, ServiceWrite;
  }

  lemma CommitStep(w: World, id: nat, t: Pending, fault: Fault)
    requires Manual(id) in w.pending && w.pending[Manual(id)] == t && Stored(w.db, t.write.vehicle)
    ensures Next(w, ManualCommit(id, fault))
            == w.(db := CommitTransaction(w.db, t, fault).0, pending := w.pending - {Manual(id)})
  {
    hide CommitTransaction;
  }

  lemma NothingToCommit(w: World, id: nat)
    requires Manual(id) !in w.pending
    ensures Next(w, ManualCommit(id, NoFault)) == w
  {
    hide CommitTransaction;
  }

  lemma AddressesVehicle(vehicle: nat, p: Property, zone: Option<Zone>, value: Value, expected: int, id: nat)
    requires ServiceWrite(vehicle, p, zone, value, expected, Manual(id)).Success?
    ensures NormalizeValue(p, zone, value).Success?
    ensures var w := ServiceWrite(vehicle, p, zone, value, expected, Manual(id)).value;
            && w.vehicle == vehicle && w.requestId == Manual(id) && w.expected == expected && w.property == p
            && (w.zone, w.value) == NormalizeValue(p, zone, value).value
  {
  }

  lemma NoSteps(w: World)
    ensures Run(w, []) == w
  {
  }

  lemma InvalidIsRefused(vehicle: nat, p: Property, zone: Option<Zone>, value: Value, expected: int, id: nat)
    ensures var normalized := NormalizeValue(p, zone, value);
            ServiceWrite(vehicle, p, zone, value, expected, Manual(id)).Failure? <==> normalized.Failure?
    ensures var normalized := NormalizeValue(p, zone, value);
            normalized.Failure? ==>
              ServiceWrite(vehicle, p, zone, value, expected, Manual(id)) == Failure(Invalid(normalized.error))
  {
    hide NormalizeValue;
  }

  lemma WriteNowIs(w: World, id: nat, vehicle: nat, p: Property, zone: Option<Zone>, value: Value, expected: nat)
    requires Stored(w.db, vehicle) && Manual(id) !in w.pending
    requires ServiceWrite(vehicle, p, zone, value, expected, Manual(id)).Success?
    ensures var write := ServiceWrite(vehicle, p, zone, value, expected, Manual(id)).value;
            var t := BeginTransaction(w.db, write, Some(expected));
            t.Success? && t.value.write == write ==>
              WriteNow(w, id, vehicle, p, zone, value, expected)
              == w.(db := CommitTransaction(w.db, t.value, NoFault).0)
    ensures var write := ServiceWrite(vehicle, p, zone, value, expected, Manual(id)).value;
            BeginTransaction(w.db, write, Some(expected)).Failure? ==>
              WriteNow(w, id, vehicle, p, zone, value, expected) == w
  {
    hide BeginTransaction, CommitTransaction, ServiceWrite, Next;
    var write := ServiceWrite(vehicle, p, zone, value, expected, Manual(id)).value;
    var t := BeginTransaction(w.db, write, Some(expected));
    BeginStep(w, id, vehicle, p, zone, value, expected, Some(expected));
    if t.Failure? {
      NothingToCommit(w, id);
    } else if t.value.write == write {
      AddressesVehicle(vehicle, p, zone, value, expected, id);
      CommitStep(w.(pending := w.pending[Manual(id) := t.value]), id, t.value, NoFault);
      assert w.pending[Manual(id) := t.value] - {Manual(id)} == w.pending;
    }
  }

  lemma WriteNowSteps(w: World, id: nat, vehicle: nat, p: Property, zone: Option<Zone>, value: Value, expected: nat)
    requires Stored(w.db, vehicle) && CellInv(vehicle, w.db[vehicle]) && Manual(id) !in w.pending
    requires NormalizeValue(p, zone, value).Success?
    ensures var w' := WriteNow(w, id, vehicle, p, zone, value, expected);
            var (zone', value') := NormalizeValue(p, zone, value).value;
            && w'.pending == w.pending && Stored(w'.db, vehicle)
            && (if Latest(w.db[vehicle]).version == expected
                then Committed(w'.db, vehicle, expected, Manual(id), p, zone', value')
                     && Latest(w'.db[vehicle]).version == expected + 1
                else w'.db == w.db)
  {
    hide CommitTransaction, BeginTransaction, CellInv, NormalizeValue, Committed, Next, WriteNow, PendingInv;
    var write := ServiceWrite(vehicle, p, zone, value, expected, Manual(id)).value;
    BeginRefines(w.db, vehicle, p, zone, value, expected, Manual(id), expected);
    OpensOnOwnRow(w.db, write);
    WriteNowIs(w, id, vehicle, p, zone, value, expected);
    var t := BeginTransaction(w.db, write, Some(expected));
    if t.Success? {
      CommitShows(w.db, t.value, NoFault);
      CommitsIfLatest(w.db, t.value);
      CommitMovesOn(w.db, t.value);
    }
  }

  /** Reading the expected row opens a transaction if there is such a row. */
  lemma OpensOnOwnRow(db: Db, write: Write)
    requires Stored(db, write.vehicle) && CellInv(write.vehicle, db[write.vehicle]) && write.expected >= 0
    ensures var r := RowAt(db[write.vehicle], write.expected).version;
            r == write.expected <==> write.expected <= Latest(db[write.vehicle]).version
  {
    var c := db[write.vehicle];
    assert RowOk(write.vehicle, c, |c.history| - 1);
    if write.expected < |c.history| { assert RowOk(write.vehicle, c, write.expected); }
  }

  lemma CommitMovesOn(db: Db, t: Pending)
    requires PendingInv(db, t) && CellInv(t.write.vehicle, db[t.write.vehicle])
    ensures var (db', r) := CommitTransaction(db, t, NoFault);
            && (r.Failure? ==> db' == db)
            && Stored(db', t.write.vehicle)
            && (r.Success? ==> Latest(db'[t.write.vehicle]).version == t.write.expected + 1)
  {
  }

  lemma TemperatureIsValid(w: World, vehicle: nat, at: nat, id: nat, temperature: real)
    requires Inv(w) && Committed(w.db, vehicle, at, Manual(id), DriverTemp, Some(Driver), Num(temperature))
    ensures 16.0 <= temperature <= 30.0
  {
    hide StoreInv, OpenInv, CallsInv, RunsInv;
    CellOf(w, vehicle);
    assert RowOk(vehicle, w.db[vehicle], at + 1);
  }

  /** After the first of the two writes of a theme, the second one, on the row the first produced, commits if
      and only if no other writer has committed since; otherwise the first stays alone. */
  lemma SecondZoneCommitsIff(w: World, id: nat, vehicle: nat, at: nat, temperature: real)
    requires Inv(w) && Manual(id) !in w.pending
    requires Committed(w.db, vehicle, at, Manual(id), DriverTemp, Some(Driver), Num(temperature))
    ensures var w' := WriteNow(w, id, vehicle, PassengerTemp, Some(Passenger), Num(temperature), at + 1);
            && Committed(w'.db, vehicle, at, Manual(id), DriverTemp, Some(Driver), Num(temperature))
            && (if Latest(w.db[vehicle]).version == at + 1
                then Committed(w'.db, vehicle, at + 1, Manual(id), PassengerTemp, Some(Passenger), Num(temperature))
                else w'.db == w.db)
  {
    hide StoreInv, OpenInv, CallsInv, RunsInv, WriteNow, Follows;
    TemperatureIsValid(w, vehicle, at, id, temperature);
    WriteNowCommitsIff(w, id, vehicle, PassengerTemp, Some(Passenger), Num(temperature), at + 1);
    CommittedStays(w, WriteNow(w, id, vehicle, PassengerTemp, Some(Passenger), Num(temperature), at + 1),
                   vehicle, at, Manual(id), DriverTemp, Some(Driver), Num(temperature));
  }

  /** A run that stops halfway: on any stored vehicle, another writer switches a light between the two writes. */
  lemma ThemeStopsHalfway(w: World, id: nat, other: nat, vehicle: nat, temperature: real)
    returns (first: World, between: World, last: World)
    requires Inv(w) && Stored(w.db, vehicle) && 16.0 <= temperature <= 30.0
    requires Manual(id) !in w.pending && Manual(other) !in w.pending
    ensures var at := Latest(w.db[vehicle]).version;
            && first == WriteNow(w, id, vehicle, DriverTemp, Some(Driver), Num(temperature), at)
            && between == WriteNow(first, other, vehicle, LightState, None, Text("OFF"), at + 1)
            && last == WriteNow(between, id, vehicle, PassengerTemp, Some(Passenger), Num(temperature), at + 1)
            && Committed(last.db, vehicle, at, Manual(id), DriverTemp, Some(Driver), Num(temperature))
    ensures Stored(last.db, vehicle)
    ensures Latest(last.db[vehicle]) == Latest(w.db[vehicle]).(
              climate := Latest(w.db[vehicle]).climate.(driver := Num(temperature)),
              lightState := Text("OFF"), version := Latest(w.db[vehicle]).version + 2)
  {
    hide StoreInv, OpenInv, CallsInv, RunsInv, WriteNow, Committed;
    var at := Latest(w.db[vehicle]).version;
    UpperCaseIsFixed("OFF");
    WriteNowCommitsIff(w, id, vehicle, DriverTemp, Some(Driver), Num(temperature), at);
    first := WriteNow(w, id, vehicle, DriverTemp, Some(Driver), Num(temperature), at);
    WriteNowCommitsIff(first, other, vehicle, LightState, None, Text("OFF"), at + 1);
    between := WriteNow(first, other, vehicle, LightState, None, Text("OFF"), at + 1);
    CommittedStays(first, between, vehicle, at, Manual(id), DriverTemp, Some(Driver), Num(temperature));
    SecondZoneCommitsIff(between, id, vehicle, at, temperature);
    last := WriteNow(between, id, vehicle, PassengerTemp, Some(Passenger), Num(temperature), at + 1);
    TwoWritesOn(w, first, between, vehicle, id, other, temperature);
  }

  lemma TwoWritesOn(w: World, first: World, between: World, vehicle: nat, id: nat, other: nat, temperature: real)
    requires Inv(w) && Inv(first) && Inv(between) && Stored(w.db, vehicle) && Stored(between.db, vehicle)
    requires Extends(w.db, first.db) && Extends(first.db, between.db)
    requires var at := Latest(w.db[vehicle]).version;
             && Committed(first.db, vehicle, at, Manual(id), DriverTemp, Some(Driver), Num(temperature))
             && Committed(between.db, vehicle, at + 1, Manual(other), LightState, Some(Global), Text("OFF"))
             && Latest(between.db[vehicle]).version == at + 2
    ensures Latest(between.db[vehicle]) == Latest(w.db[vehicle]).(
              climate := Latest(w.db[vehicle]).climate.(driver := Num(temperature)),
              lightState := Text("OFF"), version := Latest(w.db[vehicle]).version + 2)
  {
    hide StoreInv, OpenInv, CallsInv, RunsInv, AuditInv, Follows;
    CellOf(w, vehicle);
    CellOf(first, vehicle);
    CellOf(between, vehicle);
    var h, h1, h2 := w.db[vehicle].history, first.db[vehicle].history, between.db[vehicle].history;
    assert RowOk(vehicle, w.db[vehicle], |h| - 1) && RowOk(vehicle, between.db[vehicle], |h2| - 1);
    assert h1[|h| - 1] == h[|h| - 1] && h2[|h|] == h1[|h|];
    TwoRowsOn(h[|h| - 1], first.db[vehicle].audit[|h| - 1], h1[|h|], between.db[vehicle].audit[|h|], h2[|h| + 1], temperature);
  }

  lemma TwoRowsOn(s: VehicleState, a: AuditRow, s': VehicleState, b: AuditRow, s'': VehicleState, temperature: real)
    requires Follows(s, a, s') && a.property == DriverTemp && a.newValue == Num(temperature)
    requires Follows(s', b, s'') && b.property == LightState && b.newValue == Text("OFF")
    ensures s'' == s.(climate := s.climate.(driver := Num(temperature)), lightState := Text("OFF"), version := s.version + 2)
  {
  }
}
