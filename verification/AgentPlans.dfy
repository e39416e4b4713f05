/** From the calls a run planned to the fields of the rows it commits. */
module AgentPlans {
  import opened Wrappers
  import opened VehicleProperties
  import opened ToolRegistry
  import opened VehicleHal
  import opened AgentSystem
  import opened AgentGuarantees
  import opened AgentEndings

  function InZoneOf(z: Zoned, zone: Zone, v: Value): Zoned {
    if zone.Driver? then Zoned(v, z.passenger) else Zoned(z.driver, v)
  }

  /** The row a planned call leaves, field by field. */
  function RowAfter(plan: ToolCallPlan, s: VehicleState): VehicleState {
    match plan
    case SetTemperature(zone, tempC) => s.(climate := InZoneOf(s.climate, zone, Num(tempC)), version := s.version + 1)
    case SetSeatHeating(zone, level) => s.(seatHeat := InZoneOf(s.seatHeat, zone, Int(level)), version := s.version + 1)
    case SetWindow(zone, position) =>
      s.(windowPosition := InZoneOf(s.windowPosition, zone, Num(position as real)), version := s.version + 1)
    case SetDoorState(zone, state) => s.(doorState := InZoneOf(s.doorState, zone, Text(state)), version := s.version + 1)
    case SetLight(state) => s.(lightState := Text(state), version := s.version + 1)
    case SetCharge(status) => s.(chargeStatus := Text(status), version := s.version + 1)
    case Unlisted(_) => s
  }

  /** An accepted call, written through the service on the latest row, leaves exactly that row. */
  lemma PlanLands(plan: ToolCallPlan, s: VehicleState, id: RequestId)
    requires Validate(plan).Success?
    ensures var c := Validate(plan).value;
            var w := ServiceWrite(s.vehicleId, c.property, c.zone, c.value, s.version, id);
            && w.Success? && w.value.requestId == id
            && ReferenceSet(s, w.value).Success?
            && ReferenceSet(s, w.value).value.state == RowAfter(plan, s)
  {
    match plan
    case SetDoorState(_, state) => ChoicesAreUpperCase(state);
    case SetLight(state) => ChoicesAreUpperCase(state);
    case SetCharge(status) => ChoicesAreUpperCase(status);
    case _ =>
  }

  // ----- Which commands the plans become -----

  /** How many of the first n plans are accepted. */
  function AcceptedAmong(plans: seq<ToolCallPlan>, n: nat): nat
    requires n <= |plans|
  {
    if n == 0 then 0 else AcceptedAmong(plans, n - 1) + if Validate(plans[n - 1]).Success? then 1 else 0
  }

  lemma {:induction false} AcceptedAmongPrefix(plans: seq<ToolCallPlan>, m: nat, n: nat)
    requires n <= m <= |plans|
    ensures AcceptedAmong(plans[..m], n) == AcceptedAmong(plans, n)
  {
    if n > 0 { AcceptedAmongPrefix(plans, m, n - 1); }
  }

  /** Each accepted plan becomes the command at its place among the accepted ones; there are no others. */
  lemma {:induction false} CommandsAreTheAcceptedPlans(plans: seq<ToolCallPlan>, i: nat)
    requires i < |plans|
    ensures |AcceptedCommands(plans)| == AcceptedAmong(plans, |plans|)
    ensures Validate(plans[i]).Success? ==>
              && AcceptedAmong(plans, i) < |AcceptedCommands(plans)|
              && AcceptedCommands(plans)[AcceptedAmong(plans, i)] == Validate(plans[i]).value
  {
    hide Validate;
    var n := |plans| - 1;
    AcceptedAmongPrefix(plans, n, n);
    AcceptedAmongPrefix(plans, n, if i < n then i else n);
    if n > 0 {
      CommandsAreTheAcceptedPlans(plans[..n], if i < n then i else 0);
    }
  }

  // ----- From plan to committed row -----

  /** The audited write of a command leaves the row of any plan that became that command. */
  lemma RecordedPlanLands(s: VehicleState, a: AuditRow, s': VehicleState, plan: ToolCallPlan)
    requires Validate(plan).Success? && Records(a, Validate(plan).value) && Follows(s, a, s') && ValidRow(s')
    ensures s' == RowAfter(plan, s)
  {
  }

  /** A plan of a run whose call is reported done is in the vehicle's history: the row at the reported version is
      the row before it with the plan's field set, and nothing else changed. */
  lemma PlansReachTheirRows(w0: World, steps: seq<Step>, w: World, a: nat, j: nat, plan: ToolCallPlan)
    requires Reaches(w0, steps, w) && a in w.agents && w.agents[a].Executing?
    requires j < |w.agents[a].outcomes| && w.agents[a].outcomes[j].status.Done?
    requires j < |w.agents[a].commands| && Validate(plan) == Success(w.agents[a].commands[j])
    ensures var run := w.agents[a];
            var v := run.outcomes[j].status.version;
            && run.vehicle in w.db && 1 <= v < |w.db[run.vehicle].history|
            && w.db[run.vehicle].history[v] == RowAfter(plan, w.db[run.vehicle].history[v - 1])
  {
    hide Reaches, Validate, RowAfter, Successes;
    ReachesRun(w0, steps, w, a);
    OutcomesAlign(w0, steps, w, a, j);
    var run := w.agents[a];
    var c := w.db[run.vehicle];
    AcknowledgedCommit(c, a, run, j);
    var v := run.outcomes[j].status.version;
    hide RunInv, Follows, ValidRow;
    RowsFollow(run.vehicle, c, v);
    RecordedPlanLands(c.history[v - 1], c.audit[v - 1], c.history[v], plan);
  }

  lemma RowsFollow(vehicle: nat, c: Cell, v: nat)
    requires CellInv(vehicle, c) && 1 <= v <= |c.audit|
    ensures v < |c.history| && Follows(c.history[v - 1], c.audit[v - 1], c.history[v]) && ValidRow(c.history[v])
  {
    assert RowOk(vehicle, c, v);
  }

  lemma GatePassed(w0: World, before: seq<Step>, a: nat, plans: seq<ToolCallPlan>, observed: Option<real>)
    requires Initial(w0) && a in Run(w0, before).agents && Run(w0, before).agents[a].Loaded?
    ensures var gate := AgentGate(a, plans, observed);
            var w := Next(Run(w0, before), gate);
            && Reaches(w0, before + [gate], w) && Inv(w)
            && a in w.agents && w.agents[a].Executing? && w.agents[a].observed == observed
            && w.agents[a].commands == AcceptedCommands(plans)
  {
    hide Inv, AcceptedCommands;
    var gate := AgentGate(a, plans, observed);
    OneMoreStep(w0, before, Run(w0, before), gate);
    ReachesInv(w0, before + [gate], Next(Run(w0, before), gate));
  }

  /** From the gate on: once a run has passed the gate with some plans, each accepted plan is the command at its
      place, and when that command's call is reported done its row is the plan's. */
  lemma GatedPlansReachTheirRows(w0: World, before: seq<Step>, a: nat, plans: seq<ToolCallPlan>, observed: Option<real>,
                                 more: seq<Step>, i: nat)
    requires Initial(w0) && a in Run(w0, before).agents && Run(w0, before).agents[a].Loaded?
    requires i < |plans| && Validate(plans[i]).Success?
    ensures var w := Run(Next(Run(w0, before), AgentGate(a, plans, observed)), more);
            && a in w.agents && w.agents[a].Executing? && w.agents[a].observed == observed
            && var run, j := w.agents[a], AcceptedAmong(plans, i);
            && j < |run.commands| && run.commands[j] == Validate(plans[i]).value
            && (j < |run.outcomes| && run.outcomes[j].status.Done? ==>
                  var v := run.outcomes[j].status.version;
                  && run.vehicle in w.db && 1 <= v < |w.db[run.vehicle].history|
                  && w.db[run.vehicle].history[v] == RowAfter(plans[i], w.db[run.vehicle].history[v - 1]))
  {
    hide Inv, Validate, RowAfter, AcceptedCommands, AcceptedAmong, Next, Run, Reaches, Initial;
    var gate := AgentGate(a, plans, observed);
    var start := Next(Run(w0, before), gate);
    CommandsAreTheAcceptedPlans(plans, i);
    GatePassed(w0, before, a, plans, observed);
    PlanStays(start, more, a);
    ReachesOn(w0, before + [gate], start, more);
    var w, j := Run(start, more), AcceptedAmong(plans, i);
    if j < |w.agents[a].outcomes| && w.agents[a].outcomes[j].status.Done? {
      PlansReachTheirRows(w0, before + [gate] + more, w, a, j, plans[i]);
    }
  }
}
