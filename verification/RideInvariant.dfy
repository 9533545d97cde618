/**
 What every row and its audit log satisfy together, and how a row may change while somebody else is looking away.

 `Evolves` is the guarantee every transaction gives; `Settled` rows are touched by the driver-status consumer only.
 These two facts are what makes decisions taken on a row read in an earlier transaction safe.
 */
module RideInvariant {
  import opened Prelude
  import opened Fare
  import opened RideStore

  // ----- the audit log

  /** The columns of a row that its log determines. */
  datatype Projection =
    Projection(status: Status, driverId: Option<string>, finalFare: Option<real>, reason: Option<string>, times: Times)

  /** Which time columns are set. */
  datatype Times = Times(matched: bool, arrived: bool, started: bool, completed: bool, cancelled: bool)

  function TimesOf(ride: Ride): Times {
    Times(ride.matchedAt.Some?, ride.arrivedAt.Some?, ride.startedAt.Some?, ride.completedAt.Some?,
        ride.cancelledAt.Some?)
  }

  const NO_TIMES := Times(false, false, false, false, false)

  function Project(ride: Ride): Projection {
    Projection(ride.status, ride.driverId, ride.finalFare, ride.reason, TimesOf(ride))
  }

  /** Reaching a status sets its time column, if it has one. */
  function Reached(times: Times, status: Status): Times {
    match status
    case Matched => times.(matched := true)
    case Arrived => times.(arrived := true)
    case InProgress => times.(started := true)
    case Completed => times.(completed := true)
    case Cancelled => times.(cancelled := true)
    case _ => times
  }

  function StatusAfter(e: Event): Status {
    if e.RideRequested? then e.status else e.newStatus
  }

  function Apply(p: Projection, e: Event): Projection {
    var moved := p.(status := StatusAfter(e), times := Reached(p.times, StatusAfter(e)));
    match e
    case RideRequested(_, _) => Projection(e.status, None, None, None, NO_TIMES)
    case DriverMatched(_, _, driver) => moved.(driverId := Some(driver))
    case RideCancelled(_, _, reason, _) => moved.(reason := Some(reason))
    case StatusChanged(_, _, _, fare) => if fare.Some? then moved.(finalFare := fare) else moved
  }

  /** The row a reader reconstructs from the log alone. */
  function Replay(events: seq<Event>): Projection {
    if events == [] then Projection(Requested, None, None, None, NO_TIMES)
    else Apply(Replay(events[..|events| - 1]), events[|events| - 1])
  }

  lemma ReplayAppend(events: seq<Event>, e: Event)
    ensures Replay(events + [e]) == Apply(Replay(events), e)
  {
    assert (events + [e])[..|events|] == events;
  }

  ghost predicate RefundInRange(refund: real, locked: Status, fare: real) {
    CalculateRefund(locked, fare) <= refund <= Round2(fare)
  }

  /** A legal transition of the log of a ride with this estimated fare. */
  ghost predicate LegalEvent(e: Event, fare: real) {
    match e
    case RideRequested(_, _) => false
    case DriverMatched(from, to, _) => from == Requested && to == Matched
    case RideCancelled(from, to, _, refund) =>
      (from == Requested || from == Matched) && to == Cancelled && RefundInRange(refund, from, fare)
    case StatusChanged(from, to, _, finalFare) =>
      && from != to && to != Requested && to != Matched && to != Cancelled
      && (to == Completed ==> from == InProgress)
      && (to == Completed <==> finalFare.Some?)
  }

  ghost predicate Linked(events: seq<Event>, i: nat)
    requires i < |events|
  {
    if i == 0 then events[0].RideRequested? && events[0].status == Requested
    else !events[i].RideRequested? && events[i].oldStatus == StatusAfter(events[i - 1])
  }

  ghost predicate WellFormedLog(events: seq<Event>, fare: real) {
    && events != [] && (events[0].RideRequested? ==> events[0].estimatedFare == fare)
    && (forall i :: 0 <= i < |events| ==> Linked(events, i))
    && (forall i :: 0 < i < |events| ==> LegalEvent(events[i], fare))
  }

  /** REQUESTED and MATCHED are only ever the first and second entries of a log. */
  lemma EarlyStatuses(events: seq<Event>, fare: real, i: nat)
    requires WellFormedLog(events, fare) && i < |events|
    ensures StatusAfter(events[i]) == Requested <==> i == 0
    ensures StatusAfter(events[i]) == Matched ==> i == 1 && events[i].DriverMatched?
    ensures events[i].DriverMatched? ==> i == 1
    ensures events[i].RideCancelled? ==> i == 1 || (i == 2 && events[1].DriverMatched?)
  {
    assert Linked(events, i);
    if i > 0 {
      assert Linked(events, i - 1);
      if i > 1 { assert LegalEvent(events[i - 1], fare) && Linked(events, i - 2); }
      if i > 2 { assert LegalEvent(events[i - 2], fare); }
    }
  }

  // ----- rows

  ghost predicate HasDriverStatus(status: Status) {
    status == Matched || status == EnRoute || status == Arrived
  }

  ghost predicate RowFacts(ride: Ride) {
    && RatesFor(ride.rideType).Some?
    && ride.distanceKm >= 0.0 && ride.estimatedFare >= 0.0
    && (ride.matchedAt.Some? <==> ride.driverId.Some?)
    && (HasDriverStatus(ride.status) ==> ride.driverId.Some?)
    && (ride.status == InProgress ==> ride.startedAt.Some?)
    && (ride.status == Completed ==> ride.startedAt.Some? && ride.completedAt.Some? && ride.finalFare.Some?)
    && (ride.completedAt.Some? <==> ride.finalFare.Some?)
    && (ride.finalFare.Some? ==> ride.finalFare.value >= MinimumFare(RatesFor(ride.rideType).value))
    && (ride.status == Requested ==> ride.driverId.None?)
  }

  ghost predicate RowOk(ride: Ride, events: seq<Event>) {
    RowFacts(ride) && WellFormedLog(events, ride.estimatedFare) && Replay(events) == Project(ride)
  }

  ghost predicate DbInv(db: Db) {
    && db.rides.Keys == db.log.Keys
    && forall id <- db.rides :: RowOk(db.rides[id], db.log[id])
  }

  lemma LastStatus(ride: Ride, events: seq<Event>)
    requires RowOk(ride, events)
    ensures StatusAfter(events[|events| - 1]) == ride.status
  {
  }

  /** The final fare of a ride in progress is computable at any time and never below the minimum. */
  lemma FinalFareOfRideInProgress(ride: Ride, now: int)
    requires RowFacts(ride) && ride.status == InProgress
    ensures ChargedMinutes(ride, now) >= MINIMUM_RIDE_DURATION
    ensures FinalFare(ride, now).Ok?
    ensures FinalFare(ride, now).value >= MinimumFare(RatesFor(ride.rideType).value)
  {
    FareAtLeastMinimum(ride.rideType, ride.distanceKm, ChargedMinutes(ride, now));
  }

  // ----- rely and guarantee

  ghost predicate Settled(status: Status) {
    status != Requested && status != Matched
  }

  /** What any transaction may do to a row. */
  ghost predicate Evolves(before: Ride, after: Ride) {
    && after.passengerId == before.passengerId && after.rideType == before.rideType
    && after.distanceKm == before.distanceKm && after.estimatedFare == before.estimatedFare
    && (before.driverId.Some? ==> after.driverId == before.driverId)
    && (Settled(before.status) ==> Settled(after.status))
    && (after.status == Requested ==> before.status == Requested)
  }

  ghost predicate DbEvolves(before: Db, after: Db) {
    forall id <- before.rides :: id in after.rides && Evolves(before.rides[id], after.rides[id])
  }

  /**
   What transactions other than those of the driver-status consumer may do: match, cancel, and nothing to a settled
   row.
   */
  ghost predicate EvolvesUnattended(before: Ride, after: Ride) {
    || after == before
    || (!Settled(before.status) && (after.status == Matched || after.status == Cancelled))
  }

  ghost predicate OthersEvolve(before: Db, after: Db) {
    && DbEvolves(before, after)
    && forall id <- before.rides :: EvolvesUnattended(before.rides[id], after.rides[id])
  }

  // ----- every transaction keeps the invariant

  /** A legal event appended to a log whose row moves with it. */
  lemma AppendKeepsRow(ride: Ride, events: seq<Event>, ride': Ride, e: Event)
    requires RowOk(ride, events) && RowFacts(ride') && ride'.estimatedFare == ride.estimatedFare
    requires LegalEvent(e, ride.estimatedFare) && e.oldStatus == ride.status
    requires Project(ride') == Apply(Project(ride), e)
    ensures RowOk(ride', events + [e])
  {
    hide RowFacts;
    var after := events + [e];
    ReplayAppend(events, e);
    LastStatus(ride, events);
    forall i | 0 <= i < |after| ensures Linked(after, i) {
      if i < |events| { assert Linked(events, i); }
    }
  }

  /** The inductive step behind all transactions: one row and its log change together. */
  lemma CommitKeepsInv(db: Db, id: string, ride: Ride, e: Event)
    requires DbInv(db) && RowOk(ride, EventsOf(db, id) + [e])
    ensures DbInv(Commit(db, id, ride, e))
  {
    hide RowOk;
    var db' := Commit(db, id, ride, e);
    forall other | other in db'.rides ensures RowOk(db'.rides[other], db'.log[other]) {
      if other != id { assert RowOk(db.rides[other], db.log[other]); }
    }
  }

  lemma CommitEvolves(db: Db, id: string, ride: Ride, e: Event)
    requires id in db.rides && Evolves(db.rides[id], ride)
    ensures DbEvolves(db, Commit(db, id, ride, e))
    ensures EvolvesUnattended(db.rides[id], ride) ==> OthersEvolve(db, Commit(db, id, ride, e))
  {
  }

  lemma CreateKeepsInv(db: Db, id: string, ride: Ride)
    requires DbInv(db) && id !in db.rides
    requires RowFacts(ride) && Project(ride) == Projection(Requested, None, None, None, NO_TIMES)
    ensures DbInv(CreateTx(db, id, ride)) && OthersEvolve(db, CreateTx(db, id, ride))
  {
    var e := RideRequested(ride.status, ride.estimatedFare);
    ReplayAppend([], e);
    assert EventsOf(db, id) + [e] == [] + [e] == [e];
    assert RowOk(ride, [e]) by { hide RowFacts; }
    CommitKeepsInv(db, id, ride, e);
  }

  lemma MatchKeepsInv(db: Db, id: string, driverId: string, now: int)
    requires DbInv(db) && MatchTx(db, id, driverId, now).Ok?
    ensures DbInv(MatchTx(db, id, driverId, now).value)
    ensures OthersEvolve(db, MatchTx(db, id, driverId, now).value)
  {
    hide Replay, WellFormedLog, RefundInRange, RatesFor, MinimumFare, DbEvolves, OthersEvolve;
    var ride, e := db.rides[id], DriverMatched(db.rides[id].status, Matched, driverId);
    var ride' := ride.(status := Matched, driverId := Some(driverId), matchedAt := Some(now));
    assert RowOk(ride, db.log[id]);
    AppendKeepsRow(ride, db.log[id], ride', e);
    CommitEvolves(db, id, ride', e);
    CommitKeepsInv(db, id, ride', e);
  }

  lemma CancelKeepsInv(db: Db, id: string, reason: string, refund: real, now: int)
    requires DbInv(db) && CancelTx(db, id, reason, refund, now).Ok?
    requires RefundInRange(refund, db.rides[id].status, db.rides[id].estimatedFare)
    ensures DbInv(CancelTx(db, id, reason, refund, now).value)
    ensures OthersEvolve(db, CancelTx(db, id, reason, refund, now).value)
  {
    hide Replay, WellFormedLog, RefundInRange, RatesFor, MinimumFare, DbEvolves, OthersEvolve;
    var ride, e := db.rides[id], RideCancelled(db.rides[id].status, Cancelled, reason, refund);
    var ride' := ride.(status := Cancelled, reason := Some(reason), cancelledAt := Some(now));
    assert RowOk(ride, db.log[id]);
    AppendKeepsRow(ride, db.log[id], ride', e);
    CommitEvolves(db, id, ride', e);
    CommitKeepsInv(db, id, ride', e);
  }

  lemma StatusKeepsInv(db: Db, id: string, newStatus: Status, reportedBy: string, fare: Option<real>, now: int)
    requires DbInv(db) && id in db.rides && RatesFor(db.rides[id].rideType).Some?
    requires newStatus != db.rides[id].status && Settled(newStatus) && newStatus != Cancelled
    requires HasDriverStatus(newStatus) ==> db.rides[id].driverId.Some?
    requires newStatus == Completed <==> fare.Some?
    requires newStatus == Completed ==>
               && db.rides[id].status == InProgress
               && fare.value >= MinimumFare(RatesFor(db.rides[id].rideType).value)
    ensures DbInv(StatusTx(db, id, newStatus, reportedBy, fare, now).value)
    ensures DbEvolves(db, StatusTx(db, id, newStatus, reportedBy, fare, now).value)
  {
    hide Replay, WellFormedLog, RefundInRange, RatesFor, MinimumFare, DbEvolves, OthersEvolve;
    var ride, e := db.rides[id], StatusChanged(db.rides[id].status, newStatus, reportedBy, fare);
    var ride' := WithStatus(ride, newStatus, fare, now);
    assert RowOk(ride, db.log[id]);
    AppendKeepsRow(ride, db.log[id], ride', e);
    CommitEvolves(db, id, ride', e);
    CommitKeepsInv(db, id, ride', e);
  }

  /** A refund fixed on an earlier reading is never too small for the status found under the lock. */
  lemma StaleRefundInRange(seen: Status, locked: Status, fare: real)
    requires fare >= 0.0
    requires seen == locked || (seen == Requested && locked == Matched)
    requires locked == Requested || locked == Matched
    ensures RefundInRange(CalculateRefund(seen, fare), locked, fare)
  {
    RoundMonotone(fare * 0.8, fare);
  }
}
