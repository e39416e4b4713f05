/** The allowlist of tools: argument schemas and the vehicle property each tool writes. */
module ToolRegistry {
  import opened Wrappers
  import opened VehicleProperties
  import opened SafetyPolicy

  /** A planned call with the arguments its schema names; a call to any other tool is `Unlisted`. */
  datatype ToolCallPlan =
    | SetTemperature(zone: Zone, tempC: real)
    | SetSeatHeating(zone: Zone, level: int)
    | SetWindow(zone: Zone, position: int)
    | SetDoorState(zone: Zone, state: string)
    | SetLight(state: string)
    | SetCharge(status: string)
    | Unlisted(name: string)

  datatype RegistryError = NotAllowlisted | InvalidArguments

  predicate SchemaAccepts(plan: ToolCallPlan) {
    match plan
    case SetTemperature(zone, tempC) => !zone.Global? && 16.0 <= tempC <= 30.0
    case SetSeatHeating(zone, level) => !zone.Global? && 0 <= level <= 3
    case SetWindow(zone, position) => !zone.Global? && position in {0, 25, 50, 75, 100}
    case SetDoorState(zone, state) => !zone.Global? && state in DOORS
    case SetLight(state) => state in LIGHTS
    case SetCharge(status) => status in CHARGES
    case Unlisted(_) => false
  }

  function ToCommand(plan: ToolCallPlan): ToolCommand
    requires !plan.Unlisted?
  {
    match plan
    case SetTemperature(zone, tempC) =>
      ToolCommand("set_temperature", if zone.Driver? then DriverTemp else PassengerTemp, Some(zone), Num(tempC))
    case SetSeatHeating(zone, level) => ToolCommand("set_seat_heating", SeatHeat, Some(zone), Int(level))
    case SetWindow(zone, position) => ToolCommand("set_window", WindowPosition, Some(zone), Int(position))
    case SetDoorState(zone, state) => ToolCommand("set_door_state", DoorState, Some(zone), Text(state))
    case SetLight(state) => ToolCommand("set_light", LightState, Some(Global), Text(state))
    case SetCharge(status) => ToolCommand("set_charge", ChargeStatus, Some(Global), Text(status))
  }

  function Validate(plan: ToolCallPlan): Result<ToolCommand, RegistryError> {
    if plan.Unlisted? then Failure(NotAllowlisted)
    else if !SchemaAccepts(plan) then Failure(InvalidArguments)
    else Success(ToCommand(plan))
  }

  /** Which calls the allowlist and the schemas accept, under which tool name, and the two ways to be refused. */
  lemma AcceptedIff(plan: ToolCallPlan)
    ensures Validate(plan).Success?
            <==> match plan
                 case SetTemperature(zone, tempC) => (zone == Driver || zone == Passenger) && 16.0 <= tempC <= 30.0
                 case SetSeatHeating(zone, level) => (zone == Driver || zone == Passenger) && 0 <= level <= 3
                 case SetWindow(zone, position) =>
                   && (zone == Driver || zone == Passenger)
                   && (position == 0 || position == 25 || position == 50 || position == 75 || position == 100)
                 case SetDoorState(zone, state) => (zone == Driver || zone == Passenger) && (state == "OPEN" || state == "CLOSED")
                 case SetLight(state) => state == "OFF" || state == "PARKING" || state == "LOW_BEAM" || state == "HIGH_BEAM"
                 case SetCharge(status) => status == "IDLE" || status == "CHARGING"
                 case Unlisted(_) => false
    ensures Validate(plan).Failure? ==> Validate(plan).error == if plan.Unlisted? then NotAllowlisted else InvalidArguments
    ensures Validate(plan).Success? ==>
              Validate(plan).value.name
              == match plan
                 case SetTemperature(_, _) => "set_temperature"
                 case SetSeatHeating(_, _) => "set_seat_heating"
                 case SetWindow(_, _) => "set_window"
                 case SetDoorState(_, _) => "set_door_state"
                 case SetLight(_) => "set_light"
                 case _ => "set_charge"
  {
  }

  /** Equality of numbers across the integer and float types, as the source language compares them. */
  predicate SameValue(a: Value, b: Value) {
    a == b || (a.Int? && b.Num? && a.i as real == b.r)
  }

  /** A command the registry may have produced. */
  ghost predicate Listed(c: ToolCommand) {
    exists plan :: Validate(plan) == Success(c)
  }

  lemma UpperCaseIsFixed(s: string)
    requires forall i :: 0 <= i < |s| ==> !('a' <= s[i] <= 'z')
    ensures Upper(s) == s
  {
  }

  lemma ChoicesAreUpperCase(s: string)
    requires s in LIGHTS || s in DOORS || s in CHARGES
    ensures Upper(s) == s
  {
    if s in DOORS {
      UpperCaseIsFixed("OPEN"); UpperCaseIsFixed("CLOSED");
    } else if s in CHARGES {
      UpperCaseIsFixed("IDLE"); UpperCaseIsFixed("CHARGING");
    } else {
      UpperCaseIsFixed("OFF"); UpperCaseIsFixed("PARKING"); UpperCaseIsFixed("LOW_BEAM"); UpperCaseIsFixed("HIGH_BEAM");
    }
  }

  /** What the gate judged is what gets written: an accepted command survives normalization unchanged,
      never addresses the gear, and only ever reaches writable properties. */
  lemma AcceptedMeansWritten(c: ToolCommand)
    requires Listed(c)
    ensures NormalizeValue(c.property, c.zone, c.value).Success?
    ensures var (zone, v) := NormalizeValue(c.property, c.zone, c.value).value;
            zone == c.zone && SameValue(c.value, v) && (c.value.Text? ==> v == c.value)
    ensures !c.property.Gear? && !ReadOnly(c.property)
  {
    var plan :| Validate(plan) == Success(c);
    match plan
    case SetDoorState(_, state) => ChoicesAreUpperCase(state);
    case SetLight(state) => ChoicesAreUpperCase(state);
    case SetCharge(status) => ChoicesAreUpperCase(status);
    case _ =>
  }
}
