/** Tool commands and the deterministic gate that every agent command passes before it may execute. */
module SafetyPolicy {
  import opened Wrappers
  import opened VehicleProperties

  datatype ToolCommand = ToolCommand(name: string, property: Property, zone: Option<Zone>, value: Value)

  datatype SafetyDecision = SafetyDecision(approved: bool, code: string)

  /** The permit is compared by identity: only the engine holds `EnginePermit`. */
  datatype Permit = EnginePermit | ForeignPermit

  datatype AuthorizedToolCall = AuthorizedToolCall(command: ToolCommand, decision: SafetyDecision, permit: Permit) {
    predicate IsValid() { decision.approved && permit == EnginePermit }
  }

  datatype Action = Authorized(call: AuthorizedToolCall) | Rejected(decision: SafetyDecision)

  function EffectiveSpeed(s: VehicleState, observed: Option<real>): real {
    var stated := if observed.Some? then observed.value else 0.0;
    if stated > s.speedKph then stated else s.speedKph
  }

  function Evaluate(c: ToolCommand, s: VehicleState, observed: Option<real>): SafetyDecision {
    if c.property.DoorState? && c.value == Text("OPEN") && EffectiveSpeed(s, observed) > 0.0 then
      SafetyDecision(false, "DOOR_OPEN_WHILE_MOVING")
    else if c.property.DoorState? && c.value == Text("OPEN") && s.gear != Text("P") then
      SafetyDecision(false, "DOOR_OPEN_GEAR_NOT_P")
    else if c.property.ChargeStatus? && c.value == Text("CHARGING") && s.gear != Text("P") then
      SafetyDecision(false, "CHARGE_GEAR_NOT_P")
    else if c.property.Gear? && s.speedKph > 0.0 then
      SafetyDecision(false, "GEAR_CHANGE_WHILE_MOVING")
    else
      SafetyDecision(true, "APPROVED")
  }

  function Authorize(c: ToolCommand, s: VehicleState, observed: Option<real>): Action {
    var decision := Evaluate(c, s, observed);
    if decision.approved then Authorized(AuthorizedToolCall(c, decision, EnginePermit)) else Rejected(decision)
  }

  /** What a written value demands of the row it lands on. */
  predicate SafeOn(p: Property, v: Value, s: VehicleState) {
    && (p.DoorState? && v == Text("OPEN") ==> s.gear == Text("P") && s.speedKph <= 0.0)
    && (p.ChargeStatus? && v == Text("CHARGING") ==> s.gear == Text("P"))
  }

  /** The gate approves only commands that are safe on every row with the snapshot's gear and speed. */
  lemma ApprovalTransfers(c: ToolCommand, s: VehicleState, observed: Option<real>, landing: VehicleState)
    requires Authorize(c, s, observed).Authorized?
    requires landing.gear == s.gear && landing.speedKph == s.speedKph
    ensures SafeOn(c.property, c.value, landing)
  {
  }

  /** No speed was stated, or none above zero. */
  predicate SaidToStand(observed: Option<real>) { observed.None? || observed.value <= 0.0 }

  predicate OpensDoor(p: Property, v: Value) { p.DoorState? && v == Text("OPEN") }

  predicate StartsCharging(p: Property, v: Value) { p.ChargeStatus? && v == Text("CHARGING") }

  /** What the safety rules ask: doors open only on a vehicle that stands, by its row and by what was stated, in
      P; charging starts only in P; the gear is changed only on a vehicle whose row stands. */
  predicate RulesAllow(c: ToolCommand, s: VehicleState, observed: Option<real>) {
    && (OpensDoor(c.property, c.value) ==> s.gear == Text("P") && s.speedKph <= 0.0 && SaidToStand(observed))
    && (StartsCharging(c.property, c.value) ==> s.gear == Text("P"))
    && (c.property.Gear? ==> s.speedKph <= 0.0)
  }

  /** The reason for a refusal. */
  function RefusalCode(c: ToolCommand, s: VehicleState, observed: Option<real>): string {
    if c.property.Gear? then "GEAR_CHANGE_WHILE_MOVING"
    else if c.property.ChargeStatus? then "CHARGE_GEAR_NOT_P"
    else if s.speedKph <= 0.0 && SaidToStand(observed) then "DOOR_OPEN_GEAR_NOT_P"
    else "DOOR_OPEN_WHILE_MOVING"
  }

  /** The gate approves exactly what the rules allow, under the engine's permit, and names the rule for each
      refusal. */
  lemma GateDecides(c: ToolCommand, s: VehicleState, observed: Option<real>)
    ensures Authorize(c, s, observed)
            == if RulesAllow(c, s, observed)
               then Authorized(AuthorizedToolCall(c, SafetyDecision(true, "APPROVED"), EnginePermit))
               else Rejected(SafetyDecision(false, RefusalCode(c, s, observed)))
  {
  }

  /** Only the engine's own approvals pass as valid. */
  lemma OnlyPermitsAreValid(call: AuthorizedToolCall)
    ensures call.IsValid() <==> call.decision.approved && call.permit == EnginePermit
  {
  }
}
