/**
 The `coordinates` and `location_history` tables (internal/driverlocation/repository.go, internal/ride/repository.go).
 Row ids are positions in insertion order.
 */
module DriverLocations {
  import opened Prelude

  datatype Kind = DriverEntity | PassengerEntity

  datatype Coordinate = Coordinate(entity: string, kind: Kind, lat: real, lng: real, current: bool)

  datatype HistoryRow = HistoryRow(coordinateId: nat, driver: string, lat: real, lng: real, rideId: Option<string>)

  datatype Tables = Tables(coordinates: seq<Coordinate>, history: seq<HistoryRow>)

  datatype Op =
    | DriverMoved(driver: string, lat: real, lng: real, rideId: Option<string>)
    | RidePlace(passenger: string, lat: real, lng: real)

  predicate IsOf(c: Coordinate, driver: string) {
    c.kind == DriverEntity && c.entity == driver
  }

  /** One driver's points, none of them current any more. */
  function Cleared(coordinates: seq<Coordinate>, driver: string): (r: seq<Coordinate>)
    ensures |r| == |coordinates|
    ensures forall i :: 0 <= i < |r| && !IsOf(coordinates[i], driver) ==> r[i] == coordinates[i]
    ensures forall i :: 0 <= i < |r| && IsOf(coordinates[i], driver) ==>
              !r[i].current && r[i].(current := coordinates[i].current) == coordinates[i]
  {
    seq(|coordinates|, i requires 0 <= i < |coordinates| =>
      if IsOf(coordinates[i], driver) then coordinates[i].(current := false) else coordinates[i])
  }

  function Step(t: Tables, op: Op): Tables {
    match op
    case DriverMoved(driver, lat, lng, rideId) =>
      Tables(Cleared(t.coordinates, driver) + [Coordinate(driver, DriverEntity, lat, lng, true)],
             t.history + [HistoryRow(|t.coordinates|, driver, lat, lng, rideId)])
    case RidePlace(passenger, lat, lng) =>
      t.(coordinates := t.coordinates + [Coordinate(passenger, PassengerEntity, lat, lng, false)])
  }

  class LocationStore {
    var coordinates: seq<Coordinate>
    var history: seq<HistoryRow>

    constructor ()
      ensures View() == Tables([], [])
    {
      coordinates, history := [], [];
    }

    function View(): Tables
      reads this
    {
      Tables(coordinates, history)
    }

    /** One transaction of three statements; `failAt` is the statement (or the commit, 3) that fails. */
    method UpdateDriverLocation(driver: string, lat: real, lng: real, rideId: Option<string>, failAt: Option<nat>)
      returns (coordinateId: Option<nat>)
      modifies this
      ensures failAt.Some? && failAt.value <= 3 ==> coordinateId.None? && View() == old(View())
      ensures failAt.None? || failAt.value > 3 ==>
                coordinateId == Some(|old(coordinates)|)
                    && View() == Step(old(View()), DriverMoved(driver, lat, lng, rideId))
    {
      if failAt == Some(0) { return None; }
      var tx := coordinates;
      var i := 0;
      while i < |tx|
        invariant 0 <= i <= |tx| == |coordinates|
        invariant forall j :: 0 <= j < |tx| ==>
                  tx[j] == if j < i then Cleared(coordinates, driver)[j] else coordinates[j]
      {
        if tx[i].kind == DriverEntity && tx[i].entity == driver && tx[i].current {
          tx := tx[i := tx[i].(current := false)];
        }
        i := i + 1;
      }
      assert tx == Cleared(coordinates, driver);
      if failAt == Some(1) { return None; }
      var id := |tx|;
      tx := tx + [Coordinate(driver, DriverEntity, lat, lng, true)];
      if failAt == Some(2) { return None; }
      var txHistory := history + [HistoryRow(id, driver, lat, lng, rideId)];
      if failAt == Some(3) { return None; }
      coordinates, history := tx, txHistory;
      return Some(id);
    }

    method InsertCoordinate(passenger: string, lat: real, lng: real) returns (id: nat)
      modifies this
      ensures id == |old(coordinates)| && View() == Step(old(View()), RidePlace(passenger, lat, lng))
    {
      id := |coordinates|;
      coordinates := coordinates + [Coordinate(passenger, PassengerEntity, lat, lng, false)];
    }
  }

  // ----- any sequence of whole transactions

  function Run(ops: seq<Op>): Tables {
    if ops == [] then Tables([], []) else Step(Run(ops[..|ops| - 1]), ops[|ops| - 1])
  }

  /** A history row describes the driver coordinate it points to. */
  ghost predicate Describes(t: Tables, k: nat)
    requires k < |t.history|
  {
    var h := t.history[k];
    && h.coordinateId < |t.coordinates| && IsOf(t.coordinates[h.coordinateId], h.driver)
    && t.coordinates[h.coordinateId].lat == h.lat && t.coordinates[h.coordinateId].lng == h.lng
  }

  ghost predicate Recorded(t: Tables, c: nat) {
    exists k :: 0 <= k < |t.history| && t.history[k].coordinateId == c
  }

  ghost predicate Superseded(t: Tables, c: nat)
    requires c < |t.coordinates|
  {
    exists d :: c < d < |t.coordinates| && t.coordinates[d].kind == DriverEntity
        && t.coordinates[d].entity == t.coordinates[c].entity
  }

  ghost predicate Inv(t: Tables) {
    && (forall k :: 0 <= k < |t.history| ==> Describes(t, k))
    && (forall j, k :: 0 <= j < k < |t.history| ==> t.history[j].coordinateId < t.history[k].coordinateId)
    && (forall c :: 0 <= c < |t.coordinates| && t.coordinates[c].kind == DriverEntity ==> Recorded(t, c))
    && (forall c :: 0 <= c < |t.coordinates| ==>
          (t.coordinates[c].current <==> t.coordinates[c].kind == DriverEntity && !Superseded(t, c)))
  }

  /**
   Whatever the flags were before, after an update the new point is the driver's only current one; no other row
   changes.
   */
  lemma MoveLeavesOneCurrent(t: Tables, op: Op, c: nat)
    requires op.DriverMoved? && c < |Step(t, op).coordinates|
    ensures var t', n := Step(t, op), |t.coordinates|;
            && (IsOf(t'.coordinates[c], op.driver) && t'.coordinates[c].current <==> c == n)
            && (c < n ==> t'.coordinates[c].(current := t.coordinates[c].current) == t.coordinates[c])
            && (c < n && !IsOf(t.coordinates[c], op.driver) ==> t'.coordinates[c] == t.coordinates[c])
            && (forall k :: 0 <= k < |t.history| ==> t'.history[k] == t.history[k])
  {
  }

  /** The position reported is the position stored, in both tables, together with the driver and the ride. */
  lemma MoveStoresReport(t: Tables, op: Op)
    requires op.DriverMoved?
    ensures var t' := Step(t, op);
            && |t'.coordinates| == |t.coordinates| + 1 && |t'.history| == |t.history| + 1
            && var (c, h) := (t'.coordinates[|t.coordinates|], t'.history[|t.history|]);
               && c.entity == op.driver && c.kind == DriverEntity && c.current && c.lat == op.lat && c.lng == op.lng
               && h.driver == op.driver && h.coordinateId == |t.coordinates|
               && h.lat == op.lat && h.lng == op.lng && h.rideId == op.rideId
  {
  }

  lemma MoveKeepsInv(t: Tables, op: Op)
    requires Inv(t) && op.DriverMoved?
    ensures Inv(Step(t, op))
  {
    MoveKeepsHistory(t, op);
    var t', n := Step(t, op), |t.coordinates|;
    forall c | 0 <= c <= n
      ensures t'.coordinates[c].current <==> t'.coordinates[c].kind == DriverEntity && !Superseded(t', c)
    {
      if c < n && t.coordinates[c].kind == DriverEntity { MoveSupersedes(t, op, c); }
    }
  }

  lemma MoveKeepsHistory(t: Tables, op: Op)
    requires Inv(t) && op.DriverMoved?
    ensures var t' := Step(t, op);
            && (forall k :: 0 <= k < |t'.history| ==> Describes(t', k))
            && (forall j, k :: 0 <= j < k < |t'.history| ==> t'.history[j].coordinateId < t'.history[k].coordinateId)
            && (forall c :: 0 <= c < |t'.coordinates| && t'.coordinates[c].kind == DriverEntity ==> Recorded(t', c))
  {
    hide Superseded;
    var t', n := Step(t, op), |t.coordinates|;
    forall k | 0 <= k < |t'.history| ensures Describes(t', k) {
      if k < |t.history| { assert Describes(t, k); }
    }
    forall k | 0 <= k < |t.history| ensures t.history[k].coordinateId < n { assert Describes(t, k); }
    forall c | 0 <= c < |t'.coordinates| && t'.coordinates[c].kind == DriverEntity ensures Recorded(t', c) {
      if c < n {
        assert Recorded(t, c);
        var k :| 0 <= k < |t.history| && t.history[k].coordinateId == c;
        assert t'.history[k].coordinateId == c;
      } else {
        assert t'.history[|t.history|].coordinateId == c;
      }
    }
  }

  /** The new point supersedes exactly the mover's own coordinates. */
  lemma MoveSupersedes(t: Tables, op: Op, c: nat)
    requires op.DriverMoved? && c < |t.coordinates| && t.coordinates[c].kind == DriverEntity
    ensures Superseded(Step(t, op), c) <==> Superseded(t, c) || t.coordinates[c].entity == op.driver
  {
    var t', n := Step(t, op), |t.coordinates|;
    if Superseded(t, c) {
      var d :| c < d < n && t.coordinates[d].kind == DriverEntity && t.coordinates[d].entity == t.coordinates[c].entity;
      assert t'.coordinates[d].kind == DriverEntity && t'.coordinates[d].entity == t'.coordinates[c].entity;
    }
    if t.coordinates[c].entity == op.driver { assert t'.coordinates[n].entity == t'.coordinates[c].entity; }
    if Superseded(t', c) {
      var d :| c < d < n + 1 && t'.coordinates[d].kind == DriverEntity
          && t'.coordinates[d].entity == t'.coordinates[c].entity;
      if d < n { assert t.coordinates[d].kind == DriverEntity && t.coordinates[d].entity == t.coordinates[c].entity; }
    }
  }

  /** Ride creation's coordinates are never current and change nothing about any driver. */
  lemma PlaceKeepsInv(t: Tables, op: Op)
    requires Inv(t) && op.RidePlace?
    ensures Inv(Step(t, op))
    ensures Step(t, op).history == t.history && Step(t, op).coordinates[..|t.coordinates|] == t.coordinates
    ensures |Step(t, op).coordinates| == |t.coordinates| + 1
    ensures var c := Step(t, op).coordinates[|t.coordinates|];
            !c.current && c.kind == PassengerEntity && c.entity == op.passenger && c.lat == op.lat && c.lng == op.lng
  {
    hide Superseded;
    var t' := Step(t, op);
    var n := |t.coordinates|;
    forall k | 0 <= k < |t'.history| ensures Describes(t', k) { assert Describes(t, k); }
    forall c | 0 <= c < n && t.coordinates[c].kind == DriverEntity ensures Recorded(t', c) {
      assert Recorded(t, c);
      var k :| 0 <= k < |t.history| && t.history[k].coordinateId == c;
      assert t'.history[k].coordinateId == c;
    }
    forall c | 0 <= c < n ensures Superseded(t', c) <==> Superseded(t, c) { PlaceSupersedesNothing(t, op, c); }
  }

  lemma PlaceSupersedesNothing(t: Tables, op: Op, c: nat)
    requires op.RidePlace? && c < |t.coordinates|
    ensures Superseded(Step(t, op), c) <==> Superseded(t, c)
  {
    var t', n := Step(t, op), |t.coordinates|;
    if Superseded(t, c) {
      var d :| c < d < n && t.coordinates[d].kind == DriverEntity
          && t.coordinates[d].entity == t.coordinates[c].entity;
      assert t'.coordinates[d].kind == DriverEntity && t'.coordinates[d].entity == t'.coordinates[c].entity;
    }
    if Superseded(t', c) {
      var d :| c < d < n + 1 && t'.coordinates[d].kind == DriverEntity
          && t'.coordinates[d].entity == t'.coordinates[c].entity;
      assert d < n && t.coordinates[d].kind == DriverEntity && t.coordinates[d].entity == t.coordinates[c].entity;
    }
  }

  lemma {:induction false} RunKeepsInv(ops: seq<Op>)
    ensures Inv(Run(ops))
    decreases |ops|
  {
    if ops != [] {
      RunKeepsInv(ops[..|ops| - 1]);
      var op := ops[|ops| - 1];
      if op.DriverMoved? { MoveKeepsInv(Run(ops[..|ops| - 1]), op); } else { PlaceKeepsInv(Run(ops[..|ops| - 1]), op); }
    }
  }

  /** Driver coordinates and history rows are in one-to-one correspondence. */
  lemma HistoryIsBijective(ops: seq<Op>)
    ensures var t := Run(ops);
            && (forall k :: 0 <= k < |t.history| ==> Describes(t, k))
            && (forall j, k :: 0 <= j < k < |t.history| ==> t.history[j].coordinateId != t.history[k].coordinateId)
            && (forall c :: 0 <= c < |t.coordinates| && t.coordinates[c].kind == DriverEntity ==>
                  exists k :: 0 <= k < |t.history| && t.history[k].coordinateId == c)
  {
    RunKeepsInv(ops);
    var t := Run(ops);
    forall c | 0 <= c < |t.coordinates| && t.coordinates[c].kind == DriverEntity
      ensures exists k :: 0 <= k < |t.history| && t.history[k].coordinateId == c
    {
      assert Recorded(t, c);
    }
  }

  ghost predicate CurrentOf(t: Tables, driver: string, c: nat) {
    c < |t.coordinates| && t.coordinates[c].current && t.coordinates[c].entity == driver
  }

  ghost predicate LastEntry(t: Tables, driver: string, k: nat) {
    && k < |t.history| && t.history[k].driver == driver
    && forall j :: k < j < |t.history| ==> t.history[j].driver != driver
  }

  /** The driver's last history row exists if any does. */
  lemma {:induction false} LastEntryExists(t: Tables, driver: string, k: nat) returns (last: nat)
    requires k < |t.history| && t.history[k].driver == driver
    ensures LastEntry(t, driver, last)
    decreases |t.history| - k
  {
    if j :| k < j < |t.history| && t.history[j].driver == driver {
      last := LastEntryExists(t, driver, j);
    } else {
      last := k;
    }
  }

  /** The point of a driver's last history row has not been superseded. */
  lemma LastIsNotSuperseded(t: Tables, driver: string, k: nat)
    requires Inv(t) && LastEntry(t, driver, k)
    ensures Describes(t, k) && !Superseded(t, t.history[k].coordinateId)
  {
    hide Superseded, Recorded, LastEntry;
    assert t.history[k].driver == driver && k < |t.history| by { EntryIsDrivers(t, driver, k); }
    assert Describes(t, k);
    var c := t.history[k].coordinateId;
    forall d | c < d < |t.coordinates| && IsOf(t.coordinates[d], driver) ensures false {
      LaterPointIsLater(t, driver, k, d);
    }
    NobodyLater(t, driver, c);
  }

  lemma EntryIsDrivers(t: Tables, driver: string, k: nat)
    requires LastEntry(t, driver, k)
    ensures k < |t.history| && t.history[k].driver == driver
  {
  }

  lemma LaterPointIsLater(t: Tables, driver: string, k: nat, d: nat)
    requires Inv(t) && LastEntry(t, driver, k) && d < |t.coordinates| && IsOf(t.coordinates[d], driver)
    ensures d <= t.history[k].coordinateId
  {
    hide Superseded;
    assert Recorded(t, d);
    var j :| 0 <= j < |t.history| && t.history[j].coordinateId == d;
    assert Describes(t, j);
  }

  lemma NobodyLater(t: Tables, driver: string, c: nat)
    requires c < |t.coordinates| && IsOf(t.coordinates[c], driver)
    requires forall d :: c < d < |t.coordinates| ==> !IsOf(t.coordinates[d], driver)
    ensures !Superseded(t, c)
  {
  }

  lemma CurrentIsUnique(t: Tables, driver: string, c: nat, d: nat)
    requires Inv(t) && CurrentOf(t, driver, c) && CurrentOf(t, driver, d)
    ensures c == d
  {
    assert !Superseded(t, c) && !Superseded(t, d);
  }

  /** The driver's last report in this sequence. */
  ghost predicate LastReport(ops: seq<Op>, driver: string, m: nat) {
    && m < |ops| && ops[m].DriverMoved? && ops[m].driver == driver
    && forall j :: m < j < |ops| ==> !(ops[j].DriverMoved? && ops[j].driver == driver)
  }

  /** A driver who has reported has a history row. */
  lemma {:induction false} ReportIsRecorded(ops: seq<Op>, m: nat) returns (k: nat)
    requires m < |ops| && ops[m].DriverMoved?
    ensures k < |Run(ops).history| && Run(ops).history[k].driver == ops[m].driver
    decreases |ops|
  {
    var n := |ops| - 1;
    if m == n {
      k := |Run(ops[..n]).history|;
    } else {
      k := ReportIsRecorded(ops[..n], m);
    }
  }

  /** The last history row of a driver holds the last report. */
  lemma {:induction false} LastEntryIsLastReport(ops: seq<Op>, driver: string, k: nat) returns (m: nat)
    requires LastEntry(Run(ops), driver, k)
    ensures LastReport(ops, driver, m)
    ensures var h := Run(ops).history[k]; h.lat == ops[m].lat && h.lng == ops[m].lng && h.rideId == ops[m].rideId
    decreases |ops|
  {
    m := 0;
    if ops == [] {
      assert false;
    } else {
      var n := |ops| - 1;
      var front, op := Run(ops[..n]), ops[n];
      if op.DriverMoved? && op.driver == driver {
        assert Run(ops).history[|front.history|].driver == driver;
        m := n;
      } else {
        assert forall j :: 0 <= j < |front.history| ==> Run(ops).history[j] == front.history[j];
        m := LastEntryIsLastReport(ops[..n], driver, k);
        assert forall j :: 0 <= j < n ==> ops[..n][j] == ops[j];
      }
    }
  }

  /**
   A driver who has reported has exactly one current coordinate: the point of the driver's last history row, and the
   position of the driver's last report.
   */
  lemma CurrentAgreesWithHistory(ops: seq<Op>, driver: string, some: nat) returns (c: nat, k: nat, m: nat)
    requires some < |ops| && ops[some].DriverMoved? && ops[some].driver == driver
    ensures var t := Run(ops);
            && CurrentOf(t, driver, c) && (forall d :: CurrentOf(t, driver, d) ==> d == c)
            && LastEntry(t, driver, k) && t.history[k].coordinateId == c
            && t.coordinates[c].lat == t.history[k].lat && t.coordinates[c].lng == t.history[k].lng
            && LastReport(ops, driver, m) && t.history[k].rideId == ops[m].rideId
            && t.coordinates[c].lat == ops[m].lat && t.coordinates[c].lng == ops[m].lng
  {
    hide Inv, LastReport;
    RunKeepsInv(ops);
    var t := Run(ops);
    var first := ReportIsRecorded(ops, some);
    k := LastEntryExists(t, driver, first);
    LastIsNotSuperseded(t, driver, k);
    m := LastEntryIsLastReport(ops, driver, k);
    c := t.history[k].coordinateId;
    CurrentIsLast(t, driver, c);
    forall d | CurrentOf(t, driver, d) ensures d == c { CurrentIsUnique(t, driver, c, d); }
  }

  lemma CurrentIsLast(t: Tables, driver: string, c: nat)
    requires Inv(t) && c < |t.coordinates| && IsOf(t.coordinates[c], driver) && !Superseded(t, c)
    ensures CurrentOf(t, driver, c)
  {
  }
}
