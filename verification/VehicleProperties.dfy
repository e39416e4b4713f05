/**
 The vehicle row and its properties: which values a property accepts, how a property is read
 from a row and how a row with one property changed is built.
 */
module VehicleProperties {
  import opened Wrappers

  datatype Property =
    | VehicleSpeed | Gear | BatterySoc | RangeKm
    | DriverTemp | PassengerTemp | SeatHeat | WindowPosition | DoorState
    | LightState | ChargeStatus

  datatype Zone = Global | Driver | Passenger

  /** A dynamically typed property value: boolean, integer, float or string. */
  datatype Value = Flag(b: bool) | Int(i: int) | Num(r: real) | Text(s: string)

  datatype Zoned = Zoned(driver: Value, passenger: Value)

  datatype VehicleState = VehicleState(
    vehicleId: nat,
    speedKph: real,
    gear: Value,
    batterySoc: real,
    rangeKm: real,
    climate: Zoned,
    seatHeat: Zoned,
    windowPosition: Zoned,
    doorState: Zoned,
    lightState: Value,
    chargeStatus: Value,
    version: nat)

  datatype ValidationError = ReadOnlyProperty | InvalidZone | InvalidPropertyValue

  const GEARS := {"P", "R", "N", "D"}
  const LIGHTS := {"OFF", "PARKING", "LOW_BEAM", "HIGH_BEAM"}
  const DOORS := {"OPEN", "CLOSED"}
  const CHARGES := {"IDLE", "CHARGING"}

  function UpperChar(c: char): char {
    if 'a' <= c <= 'z' then (c as int - 32) as char else c
  }

  function Upper(s: string): string {
    seq(|s|, i requires 0 <= i < |s| => UpperChar(s[i]))
  }

  function RequireNumber(value: Value, minimum: real, maximum: real): Result<Value, ValidationError> {
    match value
    case Int(i) => if minimum <= i as real <= maximum then Success(Num(i as real)) else Failure(InvalidPropertyValue)
    case Num(r) => if minimum <= r <= maximum then Success(Num(r)) else Failure(InvalidPropertyValue)
    case _ => Failure(InvalidPropertyValue)
  }

  function RequireInteger(value: Value, minimum: int, maximum: int): Result<Value, ValidationError> {
    if value.Int? && minimum <= value.i <= maximum then Success(value) else Failure(InvalidPropertyValue)
  }

  function RequireChoice(value: Value, choices: set<string>): Result<Value, ValidationError> {
    if value.Text? && Upper(value.s) in choices then Success(Text(Upper(value.s))) else Failure(InvalidPropertyValue)
  }

  function InZone(zone: Zone, value: Result<Value, ValidationError>): Result<(Option<Zone>, Value), ValidationError> {
    match value
    case Success(v) => Success((Some(zone), v))
    case Failure(e) => Failure(e)
  }

  predicate ReadOnly(p: Property) { p.VehicleSpeed? || p.BatterySoc? || p.RangeKm? }

  predicate IsZoned(p: Property) { p.SeatHeat? || p.WindowPosition? || p.DoorState? }

  function NormalizeValue(p: Property, zone: Option<Zone>, value: Value): Result<(Option<Zone>, Value), ValidationError> {
    if ReadOnly(p) then Failure(ReadOnlyProperty)
    else if p.DriverTemp? then
      if zone.Some? && zone.value != Driver then Failure(InvalidZone)
      else InZone(Driver, RequireNumber(value, 16.0, 30.0))
    else if p.PassengerTemp? then
      if zone.Some? && zone.value != Passenger then Failure(InvalidZone)
      else InZone(Passenger, RequireNumber(value, 16.0, 30.0))
    else if IsZoned(p) then
      if zone.None? || zone.value.Global? then Failure(InvalidZone)
      else if p.SeatHeat? then InZone(zone.value, RequireInteger(value, 0, 3))
      else if p.WindowPosition? then InZone(zone.value, RequireNumber(value, 0.0, 100.0))
      else InZone(zone.value, RequireChoice(value, DOORS))
    else if zone.Some? && !zone.value.Global? then Failure(InvalidZone)
    else match p
      case Gear => InZone(Global, RequireChoice(value, GEARS))
      case LightState => InZone(Global, RequireChoice(value, LIGHTS))
      case _ => InZone(Global, RequireChoice(value, CHARGES))
  }

  predicate VehicleZone(zone: Option<Zone>) { zone.Some? && !zone.value.Global? }

  function Select(z: Zoned, zone: Option<Zone>): Result<Value, ValidationError> {
    if !VehicleZone(zone) then Failure(InvalidZone)
    else Success(if zone.value.Driver? then z.driver else z.passenger)
  }

  function ReadProperty(s: VehicleState, p: Property, zone: Option<Zone>): Result<Value, ValidationError> {
    match p
    case VehicleSpeed => Success(Num(s.speedKph))
    case Gear => Success(s.gear)
    case BatterySoc => Success(Num(s.batterySoc))
    case RangeKm => Success(Num(s.rangeKm))
    case DriverTemp => Success(s.climate.driver)
    case PassengerTemp => Success(s.climate.passenger)
    case SeatHeat => Select(s.seatHeat, zone)
    case WindowPosition => Select(s.windowPosition, zone)
    case DoorState => Select(s.doorState, zone)
    case LightState => Success(s.lightState)
    case ChargeStatus => Success(s.chargeStatus)
  }

  function Put(z: Zoned, zone: Zone, value: Value): Zoned {
    if zone.Driver? then z.(driver := value) else z.(passenger := value)
  }

  function ApplyProperty(s: VehicleState, p: Property, zone: Option<Zone>, value: Value)
    : Result<VehicleState, ValidationError>
  {
    if ReadOnly(p) then Failure(ReadOnlyProperty)
    else if IsZoned(p) && !VehicleZone(zone) then Failure(InvalidZone)
    else Success(
      match p
      case DriverTemp => s.(climate := s.climate.(driver := value))
      case PassengerTemp => s.(climate := s.climate.(passenger := value))
      case SeatHeat => s.(seatHeat := Put(s.seatHeat, zone.value, value))
      case WindowPosition => s.(windowPosition := Put(s.windowPosition, zone.value, value))
      case DoorState => s.(doorState := Put(s.doorState, zone.value, value))
      case Gear => s.(gear := value)
      case LightState => s.(lightState := value)
      case _ => s.(chargeStatus := value))
  }

  /** The zone matters only for the zoned properties: two addresses that agree name one stored cell. */
  predicate SameCell(p: Property, zone: Option<Zone>, q: Property, zone': Option<Zone>) {
    p == q && (IsZoned(p) ==> zone == zone')
  }

  /** The lens laws: put-get, the frame of a put, put-put, and get-put. */
  lemma LensLaws(s: VehicleState, p: Property, zone: Option<Zone>, v: Value, v': Value)
    requires ApplyProperty(s, p, zone, v).Success?
    ensures var t := ApplyProperty(s, p, zone, v).value;
            && ReadProperty(t, p, zone) == Success(v)
            && (forall q, zone' | !SameCell(p, zone, q, zone') ::
                  ReadProperty(t, q, zone') == ReadProperty(s, q, zone'))
            && ApplyProperty(t, p, zone, v') == ApplyProperty(s, p, zone, v')
            && ReadProperty(s, p, zone).Success?
            && ApplyProperty(t, p, zone, ReadProperty(s, p, zone).value) == Success(s)
            && t.vehicleId == s.vehicleId && t.version == s.version
            && t.speedKph == s.speedKph && t.batterySoc == s.batterySoc && t.rangeKm == s.rangeKm
  {
    var t := ApplyProperty(s, p, zone, v).value;
    if IsZoned(p) {
      forall q, zone' | !SameCell(p, zone, q, zone')
        ensures ReadProperty(t, q, zone') == ReadProperty(s, q, zone')
      {
        if q == p && VehicleZone(zone') { assert zone.value != zone'.value; }
      }
    }
  }

  predicate InChoice(v: Value, choices: set<string>) { v.Text? && v.s in choices }

  predicate InSpan(v: Value, minimum: real, maximum: real) { v.Num? && minimum <= v.r <= maximum }

  /** The values a property may hold once written through the service. */
  predicate InRange(p: Property, v: Value) {
    match p
    case DriverTemp => InSpan(v, 16.0, 30.0)
    case PassengerTemp => InSpan(v, 16.0, 30.0)
    case SeatHeat => v.Int? && 0 <= v.i <= 3
    case WindowPosition => InSpan(v, 0.0, 100.0)
    case DoorState => InChoice(v, DOORS)
    case Gear => InChoice(v, GEARS)
    case LightState => InChoice(v, LIGHTS)
    case ChargeStatus => InChoice(v, CHARGES)
    case _ => false
  }

  predicate BothInRange(p: Property, z: Zoned) { InRange(p, z.driver) && InRange(p, z.passenger) }

  predicate ValidRow(s: VehicleState) {
    && s.speedKph >= 0.0 && 0.0 <= s.batterySoc <= 100.0 && s.rangeKm >= 0.0
    && BothInRange(DriverTemp, s.climate)
    && BothInRange(SeatHeat, s.seatHeat)
    && BothInRange(WindowPosition, s.windowPosition)
    && BothInRange(DoorState, s.doorState)
    && InRange(Gear, s.gear) && InRange(LightState, s.lightState) && InRange(ChargeStatus, s.chargeStatus)
  }

  lemma UpperTwice(s: string)
    ensures Upper(Upper(s)) == Upper(s)
  {
  }

  /** Normalization lands in range, is idempotent, and leaves nothing for a later write to reject. */
  lemma NormalizedIsWritable(p: Property, zone: Option<Zone>, value: Value, s: VehicleState)
    requires NormalizeValue(p, zone, value).Success?
    requires ValidRow(s)
    ensures var (z, v) := NormalizeValue(p, zone, value).value;
            && InRange(p, v)
            && NormalizeValue(p, z, v) == Success((z, v))
            && ApplyProperty(s, p, z, v).Success?
            && ReadProperty(s, p, z).Success?
            && ValidRow(ApplyProperty(s, p, z, v).value)
  {
    if value.Text? { UpperTwice(value.s); }
  }

  // ----- Which field a property is, and what a value means -----

  function ZonedField(z: Zoned, zone: Option<Zone>): Result<Value, ValidationError> {
    if zone == Some(Driver) then Success(z.driver)
    else if zone == Some(Passenger) then Success(z.passenger)
    else Failure(InvalidZone)
  }

  /** The field each property is read from. */
  lemma ReadsItsField(s: VehicleState, p: Property, zone: Option<Zone>)
    ensures ReadProperty(s, p, zone)
            == match p
               case VehicleSpeed => Success(Num(s.speedKph))
               case Gear => Success(s.gear)
               case BatterySoc => Success(Num(s.batterySoc))
               case RangeKm => Success(Num(s.rangeKm))
               case DriverTemp => Success(s.climate.driver)
               case PassengerTemp => Success(s.climate.passenger)
               case SeatHeat => ZonedField(s.seatHeat, zone)
               case WindowPosition => ZonedField(s.windowPosition, zone)
               case DoorState => ZonedField(s.doorState, zone)
               case LightState => Success(s.lightState)
               case ChargeStatus => Success(s.chargeStatus)
  {
  }

  /** The zones a property may be addressed with, and the one it is stored under. */
  predicate ZoneFits(p: Property, zone: Option<Zone>) {
    match p
    case DriverTemp => zone == None || zone == Some(Driver)
    case PassengerTemp => zone == None || zone == Some(Passenger)
    case SeatHeat => zone == Some(Driver) || zone == Some(Passenger)
    case WindowPosition => zone == Some(Driver) || zone == Some(Passenger)
    case DoorState => zone == Some(Driver) || zone == Some(Passenger)
    case _ => zone == None || zone == Some(Global)
  }

  function StoredZone(p: Property, zone: Option<Zone>): Option<Zone> {
    match p
    case DriverTemp => Some(Driver)
    case PassengerTemp => Some(Passenger)
    case SeatHeat => zone
    case WindowPosition => zone
    case DoorState => zone
    case _ => Some(Global)
  }

  /** `t` is `s` with its ASCII letters in upper case. */
  predicate UpperOf(s: string, t: string) {
    && |t| == |s|
    && forall i :: 0 <= i < |s| ==>
         if 'a' <= s[i] <= 'z' then t[i] as int == s[i] as int - 32 else t[i] == s[i]
  }

  /** `v` is what `value` means for a property: the same number as a float or an integer, the same word in upper
      case. */
  predicate Means(p: Property, value: Value, v: Value) {
    match p
    case SeatHeat => v == value
    case DriverTemp => SameNumber(value, v)
    case PassengerTemp => SameNumber(value, v)
    case WindowPosition => SameNumber(value, v)
    case _ => value.Text? && v.Text? && UpperOf(value.s, v.s)
  }

  predicate SameNumber(value: Value, v: Value) {
    v.Num? && (value == v || (value.Int? && value.i as real == v.r))
  }

  lemma UpperIsUpperOf(s: string, t: string)
    ensures UpperOf(s, t) <==> t == Upper(s)
  {
    if UpperOf(s, t) {
      forall i | 0 <= i < |s| ensures t[i] == Upper(s)[i] {}
    }
  }

  /** Exactly what normalization accepts, and as what: a property that is not read-only, in a zone that fits, with
      a value that means one in the property's range. */
  lemma NormalizesIff(p: Property, zone: Option<Zone>, value: Value, v: Value)
    ensures var r := NormalizeValue(p, zone, value);
            if p.VehicleSpeed? || p.BatterySoc? || p.RangeKm? then r == Failure(ReadOnlyProperty)
            else if !ZoneFits(p, zone) then r == Failure(InvalidZone)
            else && (r == Success((StoredZone(p, zone), v)) <==> Means(p, value, v) && InRange(p, v))
                 && (r.Success? ==> Means(p, value, r.value.1))
                 && (r.Failure? ==> r.error == InvalidPropertyValue)
  {
    if value.Text? && v.Text? { UpperIsUpperOf(value.s, v.s); }
    if value.Text? { UpperIsUpperOf(value.s, Upper(value.s)); }
  }
}
