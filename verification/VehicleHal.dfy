/**
 The stored vehicle under optimistic locking.

 A property write is a transaction in two atomic parts: reading a row and preparing the candidate,
 then a compare-and-set on the version that rewrites every mutable column and appends an audit row.
 The atomic in-memory adapter is the reference; every interleaving of the two parts of any number
 of transactions must amount to running the reference serially.
 */
module VehicleHal {
  import opened Faults
  import opened Wrappers
  import opened VehicleProperties

  /** Who issued a write. Different clients use different request ids. */
  datatype RequestId = Manual(id: nat) | Agent(id: nat)

  datatype Write = Write(
    vehicle: nat, property: Property, zone: Option<Zone>, value: Value, expected: int, requestId: RequestId)

  datatype AuditRow = AuditRow(
    requestId: RequestId, property: Property, zone: Option<Zone>,
    oldValue: Value, newValue: Value, stateVersion: nat)

  datatype VehicleError =
    | NotFound | VersionConflict(expected: int, current: nat) | Storage
    | Invalid(reason: ValidationError) | NotPermitted

  datatype Change = Change(
    state: VehicleState, property: Property, zone: Option<Zone>, oldValue: Value, newValue: Value)

  /** All committed versions of one vehicle's row, oldest first, with its audit table. */
  datatype Cell = Cell(history: seq<VehicleState>, audit: seq<AuditRow>)

  type Db = map<nat, Cell>

  /** A transaction between its read and its compare-and-set: the coroutine's local variables. */
  datatype Pending = Pending(write: Write, row: VehicleState, candidate: VehicleState, oldValue: Value)

  // ----- The atomic reference -----

  function ReferenceSet(s: VehicleState, w: Write): Result<Change, VehicleError> {
    if w.vehicle != s.vehicleId then Failure(NotFound)
    else if w.expected != s.version then Failure(VersionConflict(w.expected, s.version))
    else
      var prior := ReadProperty(s, w.property, w.zone);
      if prior.Failure? then Failure(Invalid(prior.error)) else
      var updated := ApplyProperty(s, w.property, w.zone, w.value);
      if updated.Failure? then Failure(Invalid(updated.error)) else
      Success(Change(updated.value.(version := updated.value.version + 1), w.property, w.zone, prior.value, w.value))
  }

  /** The reference, by its answer: another vehicle, another version, a write the property refuses, or a row with
      that one cell written, the next version, and the cell's old and new value reported. */
  lemma ReferenceAnswers(s: VehicleState, w: Write)
    ensures var r := ReferenceSet(s, w);
            && (w.vehicle != s.vehicleId ==> r == Failure(NotFound))
            && (w.vehicle == s.vehicleId && w.expected != s.version ==>
                  r == Failure(VersionConflict(w.expected, s.version)))
            && (w.vehicle == s.vehicleId && w.expected == s.version ==>
                  && (r.Failure? ==> r.error.Invalid?)
                  && (r.Failure? <==> ApplyProperty(s, w.property, w.zone, w.value).Failure?))
            && (r.Success? ==>
                  var t := r.value.state;
                  && r.value == Change(t, w.property, w.zone, r.value.oldValue, w.value)
                  && ReadProperty(s, w.property, w.zone) == Success(r.value.oldValue)
                  && ReadProperty(t, w.property, w.zone) == Success(w.value)
                  && (forall q, zone | !SameCell(w.property, w.zone, q, zone) ::
                        ReadProperty(t, q, zone) == ReadProperty(s, q, zone))
                  && t.vehicleId == s.vehicleId && t.version == s.version + 1)
  {
    if ApplyProperty(s, w.property, w.zone, w.value).Success? {
      LensLaws(s, w.property, w.zone, w.value, w.value);
    }
  }

  class InMemoryVehicleHal {
    var state: VehicleState
    var auditRequestIds: seq<RequestId>

    constructor (initial: VehicleState)
      ensures state == initial && auditRequestIds == []
    {
      state := initial;
      auditRequestIds := [];
    }

    method SetProperty(w: Write) returns (r: Result<Change, VehicleError>)
      modifies this
      ensures r == ReferenceSet(old(state), w)
      ensures r.Success? ==> state == r.value.state && auditRequestIds == old(auditRequestIds) + [w.requestId]
      ensures r.Failure? ==> state == old(state) && auditRequestIds == old(auditRequestIds)
    {
      if w.vehicle != state.vehicleId { return Failure(NotFound); }
      if w.expected != state.version { return Failure(VersionConflict(w.expected, state.version)); }
      var prior := ReadProperty(state, w.property, w.zone);
      if prior.Failure? { return Failure(Invalid(prior.error)); }
      var updated := ApplyProperty(state, w.property, w.zone, w.value);
      if updated.Failure? { return Failure(Invalid(updated.error)); }
      state := updated.value.(version := updated.value.version + 1);
      auditRequestIds := auditRequestIds + [w.requestId];
      return Success(Change(state, w.property, w.zone, prior.value, w.value));
    }
  }

  /** The reference's state after a serial run, or `None` once it refuses a write. */
  function Serial(s: VehicleState, ws: seq<Write>): Option<VehicleState> {
    if ws == [] then Some(s) else
    var before := Serial(s, ws[..|ws| - 1]);
    if before.None? then None else
    var r := ReferenceSet(before.value, ws[|ws| - 1]);
    if r.Success? then Some(r.value.state) else None
  }

  // ----- The transaction -----

  predicate Stored(db: Db, vehicle: nat) { vehicle in db && db[vehicle].history != [] }

  function Latest(c: Cell): VehicleState
    requires c.history != []
  {
    c.history[|c.history| - 1]
  }

  /** The row a read returns: any committed version. */
  function RowAt(c: Cell, k: nat): VehicleState
    requires c.history != []
  {
    if k < |c.history| then c.history[k] else Latest(c)
  }

  /** The first half: fetch a row (`None` when storage fails), check the version, prepare the candidate. */
  function BeginTransaction(db: Db, w: Write, read: Option<nat>): Result<Pending, VehicleError> {
    if read.None? then Failure(Storage)
    else if !Stored(db, w.vehicle) then Failure(NotFound)
    else
      var row := RowAt(db[w.vehicle], read.value);
      if row.version != w.expected then Failure(VersionConflict(w.expected, row.version)) else
      var prior := ReadProperty(row, w.property, w.zone);
      if prior.Failure? then Failure(Invalid(prior.error)) else
      var candidate := ApplyProperty(row, w.property, w.zone, w.value);
      if candidate.Failure? then Failure(Invalid(candidate.error)) else
      Success(Pending(w, row, candidate.value, prior.value))
  }

  /** The columns the UPDATE statement writes; speed, charge level and range keep their stored values. */
  function UpdateColumns(stored: VehicleState, candidate: VehicleState, version: nat): VehicleState {
    stored.(gear := candidate.gear, climate := candidate.climate, seatHeat := candidate.seatHeat,
            windowPosition := candidate.windowPosition, doorState := candidate.doorState,
            lightState := candidate.lightState, chargeStatus := candidate.chargeStatus, version := version)
  }

  /** The second half: compare-and-set, audit append, commit. */
  function CommitTransaction(db: Db, t: Pending, fault: Fault): (Db, Result<Change, VehicleError>)
    requires Stored(db, t.write.vehicle)
  {
    var c := db[t.write.vehicle];
    if fault.LostBefore? then (db, Failure(Storage))
    else if Latest(c).version != t.row.version then
      (db, Failure(VersionConflict(t.write.expected, Latest(c).version)))
    else
      var next := t.row.version + 1;
      var updated := UpdateColumns(Latest(c), t.candidate, next);
      var audited := AuditRow(t.write.requestId, t.write.property, t.write.zone, t.oldValue, t.write.value, next);
      (db[t.write.vehicle := Cell(c.history + [updated], c.audit + [audited])],
       if fault.LostAfter? then Failure(Storage)
       else Success(Change(updated, t.write.property, t.write.zone, t.oldValue, t.write.value)))
  }

  /** The service in front of the adapter: normalize, then write. */
  function ServiceWrite(vehicle: nat, p: Property, zone: Option<Zone>, value: Value, expected: int, id: RequestId)
    : Result<Write, VehicleError>
  {
    var n := NormalizeValue(p, zone, value);
    if n.Failure? then Failure(Invalid(n.error))
    else Success(Write(vehicle, p, n.value.0, n.value.1, expected, id))
  }

  // ----- What a cell and a pending transaction keep -----

  /** The write an audit row records. */
  function WriteOf(vehicle: nat, a: AuditRow): Write {
    Write(vehicle, a.property, a.zone, a.newValue, a.stateVersion - 1, a.requestId)
  }

  predicate Follows(s: VehicleState, a: AuditRow, s': VehicleState) {
    && ReferenceSet(s, WriteOf(s.vehicleId, a)) == Success(Change(s', a.property, a.zone, a.oldValue, a.newValue))
    && a.stateVersion == s'.version
  }

  predicate RowOk(vehicle: nat, c: Cell, i: nat)
    requires i < |c.history|
  {
    && c.history[i].version == i
    && c.history[i].vehicleId == vehicle
    && ValidRow(c.history[i])
    && c.history[i].speedKph == c.history[0].speedKph
  }

  /** Every committed row is the reference's answer to its audit row, and versions count commits. */
  ghost predicate CellInv(vehicle: nat, c: Cell) {
    && |c.history| == |c.audit| + 1
    && (forall i :: 0 <= i < |c.history| ==> RowOk(vehicle, c, i))
    && (forall i :: 0 <= i < |c.audit| ==> Follows(c.history[i], c.audit[i], c.history[i + 1]))
  }

  predicate PendingInv(db: Db, t: Pending) {
    && Stored(db, t.write.vehicle)
    && t.row.version < |db[t.write.vehicle].history|
    && db[t.write.vehicle].history[t.row.version] == t.row
    && t.row.version == t.write.expected
    && ReadProperty(t.row, t.write.property, t.write.zone) == Success(t.oldValue)
    && ApplyProperty(t.row, t.write.property, t.write.zone, t.write.value) == Success(t.candidate)
    && ValidRow(t.candidate)
  }

  predicate Extends(db: Db, db': Db) {
    forall v | v in db :: v in db' && db[v].history <= db'[v].history && db[v].audit <= db'[v].audit
  }

  /** A read step either prepares a transaction on a committed row or fails exactly as the reference
      would on the row it read. */
  lemma BeginRefines(db: Db, vehicle: nat, p: Property, zone: Option<Zone>, value: Value, expected: int,
                     id: RequestId, read: nat)
    requires ServiceWrite(vehicle, p, zone, value, expected, id).Success?
    requires Stored(db, vehicle) && CellInv(vehicle, db[vehicle])
    ensures var w := ServiceWrite(vehicle, p, zone, value, expected, id).value;
            var r := BeginTransaction(db, w, Some(read));
            && (r.Success? ==> PendingInv(db, r.value) && r.value.write == w)
            && (r.Failure? ==> ReferenceSet(RowAt(db[vehicle], read), w) == Failure(r.error)
                               && r.error == VersionConflict(expected, RowAt(db[vehicle], read).version))
  {
    var w := ServiceWrite(vehicle, p, zone, value, expected, id).value;
    var c := db[vehicle];
    var k := if read < |c.history| then read else |c.history| - 1;
    assert RowOk(vehicle, c, k);
    NormalizedIsWritable(p, zone, value, c.history[k]);
  }

  lemma OneMoreRow(vehicle: nat, c: Cell, row: VehicleState, a: AuditRow)
    requires CellInv(vehicle, c) && Follows(Latest(c), a, row)
    requires row.version == |c.history| && row.vehicleId == vehicle && ValidRow(row) && row.speedKph == c.history[0].speedKph
    ensures CellInv(vehicle, Cell(c.history + [row], c.audit + [a]))
  {
    hide Follows, ValidRow;
    var c' := Cell(c.history + [row], c.audit + [a]);
    forall i | 0 <= i < |c'.history| ensures RowOk(vehicle, c', i) {
      if i < |c.history| { assert RowOk(vehicle, c, i); }
    }
    forall i | 0 <= i < |c'.audit| ensures Follows(c'.history[i], c'.audit[i], c'.history[i + 1]) {
      if i < |c.audit| { assert Follows(c.history[i], c.audit[i], c.history[i + 1]); }
    }
  }

  /** A commit step is the reference applied to the latest row: it takes effect exactly when the reference
      accepts, leaves exactly the reference's row, and answers as the reference does. */
  lemma CommitRefines(db: Db, t: Pending, fault: Fault)
    requires PendingInv(db, t) && CellInv(t.write.vehicle, db[t.write.vehicle])
    ensures var (db', r) := CommitTransaction(db, t, fault);
            var c, c' := db[t.write.vehicle], db'[t.write.vehicle];
            var expected := ReferenceSet(Latest(c), t.write);
            && (forall v | v in db && v != t.write.vehicle :: v in db' && db'[v] == db[v])
            && db'.Keys == db.Keys
            && (fault.NoFault? ==> r == expected)
            && (!fault.NoFault? && r != expected ==> r == Failure(Storage))
            && (c' == c || (!fault.LostBefore? && expected.Success?
                            && c' == Cell(c.history + [expected.value.state], c.audit + [c'.audit[|c.audit|]])
                            && |c'.audit| == |c.audit| + 1
                            && WriteOf(t.write.vehicle, c'.audit[|c.audit|]) == t.write
                            && Latest(c) == t.row))
            && (c' == c ==> fault.LostBefore? || expected == Failure(VersionConflict(t.write.expected, Latest(c).version)))
            && CellInv(t.write.vehicle, c')
            && Extends(db, db')
  {
    var v := t.write.vehicle;
    var c := db[v];
    var db' := CommitTransaction(db, t, fault).0;
    var c' := db'[v];
    assert RowOk(v, c, |c.history| - 1) && RowOk(v, c, t.row.version) && RowOk(v, c, 0);
    if c' != c {
      LensLaws(t.row, t.write.property, t.write.zone, t.write.value, t.write.value);
      assert Latest(c) == t.row;
      var expected := ReferenceSet(t.row, t.write);
      assert c'.history[|c.history|] == expected.value.state;
      OneMoreRow(v, c, c'.history[|c.history|], c'.audit[|c.audit|]);
    }
  }

  lemma PendingKeeps(db: Db, db': Db, t: Pending)
    requires PendingInv(db, t) && Extends(db, db')
    ensures PendingInv(db', t)
  {
    var h, h' := db[t.write.vehicle].history, db'[t.write.vehicle].history;
    assert h' [t.row.version] == h[t.row.version];
  }

  // ----- What follows for a cell -----

  function Writes(vehicle: nat, audit: seq<AuditRow>): seq<Write> {
    seq(|audit|, i requires 0 <= i < |audit| => WriteOf(vehicle, audit[i]))
  }

  /** Linearizability: the committed rows are the states of the reference run serially on the
      audited writes, in state_version order. */
  lemma {:induction false} HistoryIsSerial(vehicle: nat, c: Cell, n: nat)
    requires CellInv(vehicle, c) && n <= |c.audit|
    ensures Serial(c.history[0], Writes(vehicle, c.audit[..n])) == Some(c.history[n])
  {
    if n > 0 {
      HistoryIsSerial(vehicle, c, n - 1);
      assert Writes(vehicle, c.audit[..n])[..n - 1] == Writes(vehicle, c.audit[..n - 1]);
      assert RowOk(vehicle, c, n - 1);
      assert Follows(c.history[n - 1], c.audit[n - 1], c.history[n]);
    }
  }

  function Redo(s: VehicleState, a: AuditRow): VehicleState {
    var r := ApplyProperty(s, a.property, a.zone, a.newValue);
    if r.Success? then r.value.(version := a.stateVersion) else s
  }

  function Undo(s: VehicleState, a: AuditRow): VehicleState {
    var r := ApplyProperty(s, a.property, a.zone, a.oldValue);
    if r.Success? && a.stateVersion > 0 then r.value.(version := a.stateVersion - 1) else s
  }

  function ReplayForward(s: VehicleState, audit: seq<AuditRow>): VehicleState {
    if audit == [] then s else Redo(ReplayForward(s, audit[..|audit| - 1]), audit[|audit| - 1])
  }

  function ReplayBackward(s: VehicleState, audit: seq<AuditRow>): VehicleState
    decreases |audit|
  {
    if audit == [] then s else ReplayBackward(Undo(s, audit[|audit| - 1]), audit[..|audit| - 1])
  }

  lemma OneRowBothWays(s: VehicleState, a: AuditRow, s': VehicleState)
    requires Follows(s, a, s')
    ensures Redo(s, a) == s' && Undo(s', a) == s
  {
    LensLaws(s, a.property, a.zone, a.newValue, a.oldValue);
    var t := ApplyProperty(s, a.property, a.zone, a.newValue).value;
    assert s' == t.(version := s.version + 1);
    LensLaws(s', a.property, a.zone, a.oldValue, a.oldValue);
  }

  /** Replaying new values forward from the created row gives the current row; undoing old values
      backward from the current row gives the created row. */
  lemma {:induction false} AuditReplays(vehicle: nat, c: Cell, n: nat)
    requires CellInv(vehicle, c) && n <= |c.audit|
    ensures ReplayForward(c.history[0], c.audit[..n]) == c.history[n]
    ensures ReplayBackward(c.history[n], c.audit[..n]) == c.history[0]
  {
    if n > 0 {
      AuditReplays(vehicle, c, n - 1);
      assert c.audit[..n][..n - 1] == c.audit[..n - 1];
      assert Follows(c.history[n - 1], c.audit[n - 1], c.history[n]);
      OneRowBothWays(c.history[n - 1], c.audit[n - 1], c.history[n]);
    }
  }

  /** Audit rows carry state_version 1..version, each once, in order. */
  lemma AuditVersionsAreDense(vehicle: nat, c: Cell)
    requires CellInv(vehicle, c)
    ensures Latest(c).version == |c.audit|
    ensures forall i :: 0 <= i < |c.audit| ==> c.audit[i].stateVersion == i + 1
  {
    assert RowOk(vehicle, c, |c.history| - 1);
    forall i | 0 <= i < |c.audit| ensures c.audit[i].stateVersion == i + 1 {
      assert Follows(c.history[i], c.audit[i], c.history[i + 1]);
      assert RowOk(vehicle, c, i + 1);
    }
  }

  /** The newest audited value of one stored cell, if any write addressed it. */
  function LastWritten(audit: seq<AuditRow>, p: Property, zone: Option<Zone>): Option<Value> {
    if audit == [] then None else
    var a := audit[|audit| - 1];
    if SameCell(a.property, a.zone, p, zone) then Some(a.newValue) else LastWritten(audit[..|audit| - 1], p, zone)
  }

  /** One write changes what its own cell reads as, and nothing else. */
  lemma OneWriteReads(s: VehicleState, a: AuditRow, s': VehicleState, p: Property, zone: Option<Zone>)
    requires Follows(s, a, s')
    ensures ReadProperty(s', p, zone)
            == if SameCell(a.property, a.zone, p, zone) then Success(a.newValue) else ReadProperty(s, p, zone)
  {
    LensLaws(s, a.property, a.zone, a.newValue, a.newValue);
    var t := ApplyProperty(s, a.property, a.zone, a.newValue).value;
    assert s' == t.(version := t.version + 1);
    assert ReadProperty(s', p, zone) == ReadProperty(t, p, zone);
    if SameCell(a.property, a.zone, p, zone) { assert ReadProperty(t, p, zone) == ReadProperty(t, a.property, a.zone); }
  }

  /** No lost update: although each UPDATE rewrites every mutable column from the writer's own row,
      each property reads as the last audited write to it, or as created when there is none. */
  lemma {:induction false} NoWriteIsLost(vehicle: nat, c: Cell, n: nat, p: Property, zone: Option<Zone>)
    requires CellInv(vehicle, c) && n <= |c.audit|
    ensures ReadProperty(c.history[n], p, zone)
            == match LastWritten(c.audit[..n], p, zone)
               case Some(v) => Success(v)
               case None => ReadProperty(c.history[0], p, zone)
  {
    if n > 0 {
      hide ReadProperty, RowOk;
      NoWriteIsLost(vehicle, c, n - 1, p, zone);
      assert c.audit[..n][..n - 1] == c.audit[..n - 1];
      assert Follows(c.history[n - 1], c.audit[n - 1], c.history[n]);
      hide Follows, SameCell;
      OneWriteReads(c.history[n - 1], c.audit[n - 1], c.history[n], p, zone);
    }
  }
}
