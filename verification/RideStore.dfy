/**
 The `rides` and `ride_events` tables and the transactions that change them
 (internal/ride/repository.go, internal/ride/models.go, internal/ride/refund.go).

 Each transaction is a function from database to database; `PostgresRepository` is the code that performs it
 statement by statement and is proved to have exactly that effect, or none when a statement fails.
 */
module RideStore {
  import opened Prelude
  import opened Fare
  import opened RideRequest

  datatype Status = Requested | Matched | EnRoute | Arrived | InProgress | Completed | Cancelled

  /**
   A row of `rides`. `distanceKm` stands for the haversine distance of its fixed coordinates; times are nanoseconds.
   */
  datatype Ride = Ride(
    passengerId: string,
    rideType: string,
    distanceKm: real,
    estimatedFare: real,
    status: Status,
    driverId: Option<string>,
    finalFare: Option<real>,
    reason: Option<string>,
    matchedAt: Option<int>,
    arrivedAt: Option<int>,
    startedAt: Option<int>,
    completedAt: Option<int>,
    cancelledAt: Option<int>)

  /** A row of `ride_events` with its JSON payload. */
  datatype Event =
    | RideRequested(status: Status, estimatedFare: real)
    | DriverMatched(oldStatus: Status, newStatus: Status, driverId: string)
    | RideCancelled(oldStatus: Status, newStatus: Status, reason: string, refund: real)
    | StatusChanged(oldStatus: Status, newStatus: Status, reportedBy: string, finalFare: Option<real>)

  datatype Db = Db(rides: map<string, Ride>, log: map<string, seq<Event>>)

  datatype RepoError = NotFound | NotCancellable | AlreadyMatched | Unavailable

  /** `CalculateRefund`: everything before a match, 80 % after it, nothing later. */
  function CalculateRefund(previous: Status, estimatedFare: real): real {
    match previous
    case Requested => Round2(estimatedFare)
    case Matched => Round2(estimatedFare * 0.8)
    case _ => 0.0
  }

  /** Everything before a match, 80 % after it, each to within half a hundredth; nothing later. */
  lemma RefundInNumbers(previous: Status, fare: real)
    ensures var refund := CalculateRefund(previous, fare);
            match previous
            case Requested => fare - 0.005 <= refund <= fare + 0.005
            case Matched => 0.8 * fare - 0.005 <= refund <= 0.8 * fare + 0.005
            case _ => refund == 0.0
  {
    hide Round2;
    RoundNear(fare);
    RoundNear(fare * 0.8);
  }

  /** Go's integer conversion of a quotient: truncation toward zero. */
  function TruncatedDiv(a: int, b: int): int
    requires b > 0
  {
    if a >= 0 then a / b else -((-a) / b)
  }

  /** Minutes charged: `GetRide` does not load the estimate, so a ride without a start time is charged none. */
  function ChargedMinutes(ride: Ride, now: int): int {
    match ride.startedAt
    case None => 0
    case Some(start) =>
      var end := if ride.completedAt.Some? then ride.completedAt.value else now;
      var minutes := TruncatedDiv(end - start, NANOSECONDS_PER_MINUTE);
      if minutes < MINIMUM_RIDE_DURATION then MINIMUM_RIDE_DURATION else minutes
  }

  /** Whole minutes of 60 seconds between start and end, the end being the completion if there was one; at least one. */
  lemma MinutesInNumbers(ride: Ride, now: int)
    ensures ride.startedAt.None? ==> ChargedMinutes(ride, now) == 0
    ensures ride.startedAt.Some? ==>
              var minutes := ChargedMinutes(ride, now);
              var elapsed := (if ride.completedAt.Some? then ride.completedAt.value else now) - ride.startedAt.value;
              if elapsed < 120_000_000_000 then minutes == 1
              else 60_000_000_000 * minutes <= elapsed < 60_000_000_000 * (minutes + 1)
  {
  }

  /** `calculateFinalFare`. */
  function FinalFare(ride: Ride, now: int): Result<real, FareError> {
    CalculateFare(ride.rideType, ride.distanceKm, ChargedMinutes(ride, now))
  }

  // ----- transactions

  function Lookup(db: Db, id: string): Option<Ride> {
    if id in db.rides then Some(db.rides[id]) else None
  }

  function EventsOf(db: Db, id: string): seq<Event> {
    if id in db.log then db.log[id] else []
  }

  /** One committed update: the new row together with its audit event. */
  function Commit(db: Db, id: string, ride: Ride, event: Event): Db {
    Db(db.rides[id := ride], db.log[id := EventsOf(db, id) + [event]])
  }

  function NewRide(passengerId: string, rideType: string, distanceKm: real, estimatedFare: real): Ride {
    Ride(passengerId, rideType, distanceKm, estimatedFare, Requested,
         None, None, None, None, None, None, None, None)
  }

  function CreateTx(db: Db, id: string, ride: Ride): Db {
    Commit(db, id, ride, RideRequested(ride.status, ride.estimatedFare))
  }

  function CancelTx(db: Db, id: string, reason: string, refund: real, now: int): Result<Db, RepoError> {
    match Lookup(db, id)
    case None => Err(NotFound)
    case Some(ride) =>
      if ride.status != Requested && ride.status != Matched then Err(NotCancellable)
      else Ok(Commit(db, id,
                     ride.(status := Cancelled, reason := Some(reason), cancelledAt := Some(now)),
                     RideCancelled(ride.status, Cancelled, reason, refund)))
  }

  function MatchTx(db: Db, id: string, driverId: string, now: int): Result<Db, RepoError> {
    match Lookup(db, id)
    case None => Err(NotFound)
    case Some(ride) =>
      if ride.status != Requested then Err(AlreadyMatched)
      else Ok(Commit(db, id,
                     ride.(status := Matched, driverId := Some(driverId), matchedAt := Some(now)),
                     DriverMatched(ride.status, Matched, driverId)))
  }

  /** The columns `UpdateRideStatus` writes for each new status. */
  function WithStatus(ride: Ride, newStatus: Status, fare: Option<real>, now: int): Ride {
    var moved := ride.(status := newStatus);
    match newStatus
    case Matched => moved.(matchedAt := Some(now))
    case Arrived => moved.(arrivedAt := Some(now))
    case InProgress => moved.(startedAt := Some(now))
    case Completed =>
      var done := moved.(completedAt := Some(now));
      if fare.Some? then done.(finalFare := fare) else done
    case Cancelled => moved.(cancelledAt := Some(now))
    case _ => moved
  }

  function StatusTx(db: Db, id: string, newStatus: Status, reportedBy: string, fare: Option<real>, now: int)
    : Result<Db, RepoError>
  {
    match Lookup(db, id)
    case None => Err(NotFound)
    case Some(ride) =>
      var loggedFare := if newStatus == Completed then fare else None;
      Ok(Commit(db, id, WithStatus(ride, newStatus, fare, now),
                StatusChanged(ride.status, newStatus, reportedBy, loggedFare)))
  }

  // ----- what each transaction writes

  /** One row and its log change; the log gains one entry. */
  ghost predicate Writes(db: Db, id: string, ride: Ride, e: Event, after: Db) {
    && after.rides == db.rides[id := ride]
    && after.log.Keys == db.log.Keys + {id}
    && (forall other <- db.log :: other != id ==> after.log[other] == db.log[other])
    && after.log[id] == EventsOf(db, id) + [e]
  }

  /** Only a known ride that is REQUESTED is matched: status, driver and match time are written and logged. */
  lemma MatchWrites(db: Db, id: string, driverId: string, now: int)
    ensures var tx := MatchTx(db, id, driverId, now);
            if id !in db.rides then tx == Err(NotFound)
            else if db.rides[id].status != Requested then tx == Err(AlreadyMatched)
            else
              tx.Ok? && Writes(db, id, Ride(db.rides[id].passengerId, db.rides[id].rideType, db.rides[id].distanceKm,
                                            db.rides[id].estimatedFare, Matched, Some(driverId), db.rides[id].finalFare,
                                            db.rides[id].reason, Some(now), db.rides[id].arrivedAt,
                                            db.rides[id].startedAt, db.rides[id].completedAt, db.rides[id].cancelledAt),
                               DriverMatched(Requested, Matched, driverId), tx.value)
  {
  }

  /**
   Only a known ride that is REQUESTED or MATCHED is cancelled: status, reason and time are written, the refund is
   logged.
   */
  lemma CancelWrites(db: Db, id: string, reason: string, refund: real, now: int)
    ensures var tx := CancelTx(db, id, reason, refund, now);
            if id !in db.rides then tx == Err(NotFound)
            else if db.rides[id].status != Requested && db.rides[id].status != Matched then tx == Err(NotCancellable)
            else
              tx.Ok? && Writes(db, id, Ride(db.rides[id].passengerId, db.rides[id].rideType, db.rides[id].distanceKm,
                                            db.rides[id].estimatedFare, Cancelled, db.rides[id].driverId,
                                            db.rides[id].finalFare, Some(reason), db.rides[id].matchedAt,
                                            db.rides[id].arrivedAt, db.rides[id].startedAt, db.rides[id].completedAt,
                                            Some(now)),
                               RideCancelled(db.rides[id].status, Cancelled, reason, refund), tx.value)
  {
  }

  /** Each of the reported statuses writes its own time, COMPLETED also the fare; nothing else of the row changes. */
  lemma StatusWrites(db: Db, id: string, newStatus: Status, reportedBy: string, fare: Option<real>, now: int)
    requires newStatus == EnRoute || newStatus == Arrived || newStatus == InProgress || newStatus == Completed
    requires newStatus == Completed <==> fare.Some?
    ensures var tx := StatusTx(db, id, newStatus, reportedBy, fare, now);
            if id !in db.rides then tx == Err(NotFound)
            else
              var was := db.rides[id];
              tx.Ok? && Writes(db, id, Ride(was.passengerId, was.rideType, was.distanceKm, was.estimatedFare, newStatus,
                                            was.driverId, if newStatus == Completed then fare else was.finalFare,
                                            was.reason, was.matchedAt,
                                            if newStatus == Arrived then Some(now) else was.arrivedAt,
                                            if newStatus == InProgress then Some(now) else was.startedAt,
                                            if newStatus == Completed then Some(now) else was.completedAt,
                                            was.cancelledAt),
                               StatusChanged(was.status, newStatus, reportedBy, fare), tx.value)
  {
  }

  // ----- failures

  /** Which statement of a repository call fails; `Reread` is the read made after the commit. */
  datatype Fault = NoFault | AtBegin | AtSelect | AtUpdate | AtInsert | AtCommit | AtReread

  /** What a repository call with the given transaction does to the database and returns. */
  function CallEffect(db: Db, id: string, tx: Result<Db, RepoError>, fault: Fault): (Db, Result<Ride, RepoError>)
    requires tx.Ok? ==> id in tx.value.rides
  {
    if fault == AtBegin || fault == AtSelect then (db, Err(Unavailable))
    else
      match tx
      case Err(e) => (db, Err(e))
      case Ok(after) =>
        if fault == AtUpdate || fault == AtInsert || fault == AtCommit then (db, Err(Unavailable))
        else if fault == AtReread then (after, Err(Unavailable))
        else (after, Ok(after.rides[id]))
  }

  // ----- the dynamically built UPDATE statement

  datatype Column =
    StatusCol | MatchedAtCol | ArrivedAtCol | StartedAtCol | CompletedAtCol | FinalFareCol | CancelledAtCol

  datatype Arg = StatusArg(status: Status) | TimeArg(at: int) | FareArg(fare: real) | IdArg(id: string)

  /** One column of the SET list with the number of its placeholder. */
  datatype Assignment = Assignment(column: Column, placeholder: nat)

  /** Writes one column. A mistyped argument, which no query built below has, leaves the row alone. */
  function Assign(ride: Ride, column: Column, arg: Arg): Ride {
    match (column, arg)
    case (StatusCol, StatusArg(s)) => ride.(status := s)
    case (MatchedAtCol, TimeArg(t)) => ride.(matchedAt := Some(t))
    case (ArrivedAtCol, TimeArg(t)) => ride.(arrivedAt := Some(t))
    case (StartedAtCol, TimeArg(t)) => ride.(startedAt := Some(t))
    case (CompletedAtCol, TimeArg(t)) => ride.(completedAt := Some(t))
    case (FinalFareCol, FareArg(f)) => ride.(finalFare := Some(f))
    case (CancelledAtCol, TimeArg(t)) => ride.(cancelledAt := Some(t))
    case _ => ride
  }

  /** The database's reading of the SET list: `$n` is the n-th argument, counted from one. */
  function ApplySets(ride: Ride, sets: seq<Assignment>, args: seq<Arg>): Ride
    requires forall i :: 0 <= i < |sets| ==> 1 <= sets[i].placeholder <= |args|
  {
    if sets == [] then ride
    else
      var last := sets[|sets| - 1];
      Assign(ApplySets(ride, sets[..|sets| - 1], args), last.column, args[last.placeholder - 1])
  }

  lemma ApplyOne(ride: Ride, set0: Assignment, args: seq<Arg>)
    requires 1 <= set0.placeholder <= |args|
    ensures ApplySets(ride, [set0], args) == Assign(ride, set0.column, args[set0.placeholder - 1])
  {
    assert [set0][..0] == [];
  }

  lemma ApplyAppend(ride: Ride, sets: seq<Assignment>, next: Assignment, args: seq<Arg>, more: seq<Arg>)
    requires forall i :: 0 <= i < |sets| ==> 1 <= sets[i].placeholder <= |args|
    requires 1 <= next.placeholder <= |args + more|
    ensures forall i :: 0 <= i < |sets| ==> 1 <= sets[i].placeholder <= |args + more|
    ensures ApplySets(ride, sets + [next], args + more)
         == Assign(ApplySets(ride, sets, args), next.column, (args + more)[next.placeholder - 1])
  {
    assert (sets + [next])[..|sets|] == sets;
    ExtraArgs(ride, sets, args, more);
  }

  /** Arguments appended later do not disturb the placeholders already in the query. */
  lemma {:induction false} ExtraArgs(ride: Ride, sets: seq<Assignment>, args: seq<Arg>, more: seq<Arg>)
    requires forall i :: 0 <= i < |sets| ==> 1 <= sets[i].placeholder <= |args|
    ensures ApplySets(ride, sets, args + more) == ApplySets(ride, sets, args)
  {
    if sets != [] {
      ExtraArgs(ride, sets[..|sets| - 1], args, more);
    }
  }

  /** A passenger's row of `coordinates`. */
  datatype Place = Place(passengerId: string, coordinate: Coordinate)

  class PostgresRepository {
    var rides: map<string, Ride>
    var events: map<string, seq<Event>>
    var places: seq<Place>

    function View(): Db
      reads this
    {
      Db(rides, events)
    }

    constructor ()
      ensures View() == Db(map[], map[]) && places == []
    {
      rides, events, places := map[], map[], [];
    }

    /** `failAt` counts the statements: begin, two coordinates, the ride, its event, the commit (5). */
    method CreateRide(id: string, ride: Ride, pickup: Coordinate, destination: Coordinate, failAt: Option<nat>)
      returns (r: Result<string, RepoError>)
      modifies this
      ensures failAt.Some? && failAt.value <= 5 ==>
                r == Err(Unavailable) && View() == old(View()) && places == old(places)
      ensures failAt.None? || failAt.value > 5 ==>
                && r == Ok(id) && View() == CreateTx(old(View()), id, ride)
                && places == old(places) + [Place(ride.passengerId, pickup), Place(ride.passengerId, destination)]
    {
      if failAt == Some(0) { return Err(Unavailable); }
      var txPlaces := places + [Place(ride.passengerId, pickup)];
      if failAt == Some(1) { return Err(Unavailable); }
      txPlaces := txPlaces + [Place(ride.passengerId, destination)];
      if failAt == Some(2) { return Err(Unavailable); }
      var txRides := rides[id := ride];
      if failAt == Some(3) { return Err(Unavailable); }
      var txEvents := InsertRideEvent(events, id, RideRequested(ride.status, ride.estimatedFare));
      if failAt == Some(4) || failAt == Some(5) { return Err(Unavailable); }
      rides, events, places := txRides, txEvents, txPlaces;
      return Ok(id);
    }

    method GetRide(id: string, fault: Fault) returns (r: Result<Ride, RepoError>)
      ensures r == if fault != NoFault then Err(Unavailable)
                   else match Lookup(View(), id) case None => Err(NotFound) case Some(ride) => Ok(ride)
    {
      if fault != NoFault { return Err(Unavailable); }
      if id !in rides { return Err(NotFound); }
      return Ok(rides[id]);
    }

    method CancelRide(id: string, reason: string, refund: real, now: int, fault: Fault)
      returns (r: Result<Ride, RepoError>)
      modifies this`rides, this`events
      ensures (View(), r) == CallEffect(old(View()), id, CancelTx(old(View()), id, reason, refund, now), fault)
    {
      if fault == AtBegin || fault == AtSelect { return Err(Unavailable); }
      if id !in rides { return Err(NotFound); }
      var status := rides[id].status;
      if status != Requested && status != Matched { return Err(NotCancellable); }
      if fault == AtUpdate { return Err(Unavailable); }
      var txRides := rides[id := rides[id].(status := Cancelled, reason := Some(reason), cancelledAt := Some(now))];
      if fault == AtInsert { return Err(Unavailable); }
      var txEvents := InsertRideEvent(events, id, RideCancelled(status, Cancelled, reason, refund));
      if fault == AtCommit { return Err(Unavailable); }
      rides, events := txRides, txEvents;
      r := GetRide(id, if fault == AtReread then fault else NoFault);
    }

    method UpdateRideMatched(id: string, driverId: string, now: int, fault: Fault)
      returns (r: Result<Ride, RepoError>)
      modifies this`rides, this`events
      ensures (View(), r) == CallEffect(old(View()), id, MatchTx(old(View()), id, driverId, now), fault)
    {
      if fault == AtBegin || fault == AtSelect { return Err(Unavailable); }
      if id !in rides { return Err(NotFound); }
      var status := rides[id].status;
      if status != Requested { return Err(AlreadyMatched); }
      if fault == AtUpdate { return Err(Unavailable); }
      var txRides := rides[id := rides[id].(status := Matched, driverId := Some(driverId), matchedAt := Some(now))];
      if fault == AtInsert { return Err(Unavailable); }
      var txEvents := InsertRideEvent(events, id, DriverMatched(status, Matched, driverId));
      if fault == AtCommit { return Err(Unavailable); }
      rides, events := txRides, txEvents;
      r := GetRide(id, if fault == AtReread then fault else NoFault);
    }

    method UpdateRideStatus(id: string, newStatus: Status, reportedBy: string, fare: Option<real>, now: int,
                            fault: Fault)
      returns (r: Result<Ride, RepoError>)
      modifies this`rides, this`events
      ensures (View(), r) == CallEffect(old(View()), id, StatusTx(old(View()), id, newStatus, reportedBy, fare, now),
                fault)
    {
      if fault == AtBegin || fault == AtSelect { return Err(Unavailable); }
      if id !in rides { return Err(NotFound); }
      var oldStatus := rides[id].status;
      var sets, args, argIndex, loggedFare := BuildUpdate(rides[id], id, newStatus, fare, now);
      if fault == AtUpdate { return Err(Unavailable); }
      var txRides := rides[args[argIndex - 1].id := ApplySets(rides[id], sets, args)];
      if fault == AtInsert { return Err(Unavailable); }
      var txEvents := InsertRideEvent(events, id, StatusChanged(oldStatus, newStatus, reportedBy, loggedFare));
      if fault == AtCommit { return Err(Unavailable); }
      rides, events := txRides, txEvents;
      r := GetRide(id, if fault == AtReread then fault else NoFault);
    }

    /** The query text, its arguments and the next placeholder number grow together; `$argIndex` is the row's id. */
    static method BuildUpdate(ghost ride: Ride, id: string, newStatus: Status, fare: Option<real>, now: int)
      returns (sets: seq<Assignment>, args: seq<Arg>, argIndex: nat, loggedFare: Option<real>)
      ensures forall i :: 0 <= i < |sets| ==> 1 <= sets[i].placeholder <= |args|
      ensures ApplySets(ride, sets, args) == WithStatus(ride, newStatus, fare, now)
      ensures 1 <= argIndex <= |args| && args[argIndex - 1] == IdArg(id)
      ensures loggedFare == if newStatus == Completed then fare else None
    {
      sets := [Assignment(StatusCol, 1)];
      args := [StatusArg(newStatus), TimeArg(now)];
      argIndex := 3;
      loggedFare := None;
      ApplyOne(ride, sets[0], args);
      match newStatus {
        case Matched =>
          sets, args, argIndex := AppendSet(ride, sets, args, argIndex, MatchedAtCol, TimeArg(now));
        case Arrived =>
          sets, args, argIndex := AppendSet(ride, sets, args, argIndex, ArrivedAtCol, TimeArg(now));
        case InProgress =>
          sets, args, argIndex := AppendSet(ride, sets, args, argIndex, StartedAtCol, TimeArg(now));
        case Completed =>
          sets, args, argIndex := AppendSet(ride, sets, args, argIndex, CompletedAtCol, TimeArg(now));
          if fare.Some? {
            sets, args, argIndex := AppendSet(ride, sets, args, argIndex, FinalFareCol, FareArg(fare.value));
            loggedFare := fare;
          }
        case Cancelled =>
          sets, args, argIndex := AppendSet(ride, sets, args, argIndex, CancelledAtCol, TimeArg(now));
        case _ =>
      }
      ExtraArgs(ride, sets, args, [IdArg(id)]);
      args := args + [IdArg(id)];
    }

    /** Adds one column to the query together with its argument. */
    static method AppendSet(ghost ride: Ride, sets: seq<Assignment>, args: seq<Arg>, argIndex: nat, column: Column,
                            arg: Arg)
      returns (sets': seq<Assignment>, args': seq<Arg>, argIndex': nat)
      requires argIndex == |args| + 1
      requires forall i :: 0 <= i < |sets| ==> 1 <= sets[i].placeholder <= |args|
      ensures argIndex' == |args'| + 1
      ensures forall i :: 0 <= i < |sets'| ==> 1 <= sets'[i].placeholder <= |args'|
      ensures ApplySets(ride, sets', args') == Assign(ApplySets(ride, sets, args), column, arg)
    {
      ApplyAppend(ride, sets, Assignment(column, argIndex), args, [arg]);
      sets', args', argIndex' := sets + [Assignment(column, argIndex)], args + [arg], argIndex + 1;
    }

    static method InsertRideEvent(table: map<string, seq<Event>>, id: string, event: Event)
      returns (table': map<string, seq<Event>>)
      ensures table' == table[id := (if id in table then table[id] else []) + [event]]
    {
      var rows := if id in table then table[id] else [];
      table' := table[id := rows + [event]];
    }
  }
}
