/**
 The ride service's handlers as code (internal/ride/service.go, internal/ride/consumer.go).

 Each handler is written as the source runs it, calling the repository and changing the timer map, and is proved to
 perform a run of its own actions in the lifecycle machine when nobody else acts in between; that other actors may act
 between those actions is what the machine adds. `Fault` parameters say where the repository fails, `sent` whether a
 publish works.
 */
module RideService {
  import opened Prelude
  import opened Fare
  import opened RideRequest
  import opened RideStore
  import opened Lifecycle
  import opened LifecycleRuns

  datatype Outcome =
    Success | Failure(error: RepoError) | PassengerMismatch | FareFailure | PublishFailure | InvalidRequest

  class Service {
    const repository: PostgresRepository
    var matchTimers: map<string, bool>
    var published: seq<RideStatusMessage>

    constructor (repository: PostgresRepository)
      ensures this.repository == repository && matchTimers == map[] && published == []
    {
      this.repository := repository;
      matchTimers, published := map[], [];
    }

    /** The machine's shared state is this object's. */
    ghost predicate Shows(s: State)
      reads this, repository
    {
      repository.View() == s.db && matchTimers == s.timers && published == s.rideStatus
    }

    /** A run of the machine with the given actions turns `s` into what this object now shows. */
    ghost predicate Ran(s: State, actions: seq<Action>)
      reads this, repository
    {
      Run(s, actions).Some? && Shows(Run(s, actions).value)
    }

    /** A commit followed by the announcement of its row, which is lost when the publish fails. */
    ghost predicate Announced(s: State, id: string, db: Db, sent: bool)
      reads this, repository
    {
      && repository.View() == db && id in db.rides
      && var row := db.rides[id];
         var says := RideStatusMessage(id, row.status, if row.driverId.Some? then row.driverId.value else "");
         published == if sent then s.rideStatus + [says] else s.rideStatus
    }

    method StartMatchingTimeout(id: string)
      modifies this`matchTimers
      ensures matchTimers == old(matchTimers)[id := true]
    {
      if id in matchTimers {
        matchTimers := matchTimers[id := false];   // stopped
      }
      matchTimers := matchTimers[id := true];
    }

    method ClearMatchingTimeout(id: string)
      modifies this`matchTimers
      ensures matchTimers == old(matchTimers) - {id}
    {
      if id in matchTimers {
        matchTimers := matchTimers - {id};
      }
    }

    method PublishRideStatus(id: string, ride: Ride, sent: bool)
      modifies this`published
      ensures !sent ==> published == old(published)
      ensures sent ==>
                && |published| == |old(published)| + 1 && published[..|old(published)|] == old(published)
                && var says := published[|old(published)|];
                   && says.rideId == id && says.status == ride.status
                   && (ride.driverId.Some? ==> says.driverId == ride.driverId.value)
                   && (ride.driverId.None? ==> says.driverId == "")
      ensures published == if sent then old(published) + [StatusMessageFor(id, ride)] else old(published)
    {
      var message := RideStatusMessage(id, ride.status, "");
      if ride.driverId.Some? {
        message := message.(driverId := ride.driverId.value);
      }
      if sent {
        published := published + [message];
      }
    }

    /**
     `id` is the fresh random id of the insert, `distanceKm` the distance between the request's coordinates. On success
     the ride waits under an armed timer; after a failed publish it waits under none.
     */
    method CreateRide(id: string, request: CreateRideRequest, distanceKm: real, failAt: Option<nat>, sent: bool,
                      ghost s: State)
      returns (r: Outcome, ghost actions: seq<Action>)
      requires Shows(s) && id != "" && id !in s.db.rides
      modifies this, repository
      ensures Ran(s, actions) && forall a <- actions :: CreateAction(a, id)
      ensures r == Success ==> id in Run(s, actions).value.history.created && matchTimers == s.timers[id := true]
      ensures r == PublishFailure ==> matchTimers == s.timers
      ensures r == Success || r == PublishFailure ==>
                var quote := CalculateFareEstimate(request.rideType, distanceKm);
                && quote.Ok? && r == (if sent then Success else PublishFailure)
                && repository.View()
                   == CreateTx(s.db, id, NewRide(request.passengerId, request.rideType, distanceKm, quote.value.fare))
                && id in repository.rides && repository.rides[id].passengerId == request.passengerId
                && repository.rides[id].rideType == request.rideType && repository.rides[id].distanceKm == distanceKm
                && repository.rides[id].estimatedFare == quote.value.fare && repository.rides[id].status == Requested
                && repository.places == old(repository.places)
                     + [Place(request.passengerId, request.pickup), Place(request.passengerId, request.destination)]
      ensures r != Success && r != PublishFailure ==>
                && actions == [] && repository.places == old(repository.places)
                && (r.InvalidRequest? || (r.Failure? && failAt.Some?))
      ensures r.InvalidRequest? <==> !Acceptable(request) || distanceKm < 0.0
    {
      hide Next, CreateNext;
      actions := [];
      var error := ValidateCreateRideRequest(request);
      if error.Some? {
        return InvalidRequest, actions;
      }
      assert !Breaks(request, UnknownRideType) && !Breaks(request, PassengerIdRequired);
      var estimate := CalculateFareEstimate(request.rideType, distanceKm);
      if estimate.Err? {
        return InvalidRequest, actions;
      }
      var ride := NewRide(request.passengerId, request.rideType, distanceKm, estimate.value.fare);
      var stored := repository.CreateRide(id, ride, request.pickup, request.destination, failAt);
      if stored.Err? {
        return Failure(stored.error), actions;
      }
      ghost var a := CreateCommit(id, request.passengerId, request.rideType, distanceKm);
      CreateEnabled(s, a);
      actions := CreateRun(s, a, id, sent);
      if !sent {
        return PublishFailure, actions;
      }
      StartMatchingTimeout(id);
      r := Success;
    }

    /** The function run by the matching timer. Without a repository failure the ride is resolved when it returns. */
    method MatchingTimeout(id: string, now: int, firstFault: bool, readFault: bool, fault: Fault, sent: bool,
                           ghost s: State)
      returns (ghost actions: seq<Action>)
      requires Shows(s) && TimerCall(id) in s.calls && s.calls[TimerCall(id)] == AtCallbackGet(id)
      modifies this, repository
      ensures Ran(s, actions) && TimerCall(id) !in Run(s, actions).value.calls
      ensures !firstFault && !readFault && fault == NoFault && id in s.db.rides ==>
                id in repository.rides && repository.rides[id].status != Requested
      ensures id !in s.db.rides || s.db.rides[id].status != Requested ==>
                repository.View() == s.db && matchTimers == s.timers && published == s.rideStatus
    {
      hide CancelNext;
      ghost var get := CallbackRead(id, !firstFault);
      ghost var s1 := TimerNext(s, get).value;
      OneStep(s, get, s1);
      actions := [get];
      var read := repository.GetRide(id, if firstFault then AtSelect else NoFault);
      if read.Err? || read.value.status != Requested {
        return;
      }
      var _, _, rest := CancelRide(id, "", TIMEOUT_REASON, now, readFault, fault, sent, TimerCall(id), s1);
      RunAppend(s, [get], rest);
      actions := [get] + rest;
    }

    method HandleDriverResponse(message: DriverResponse, now: int, fault: Fault, sent: bool, ghost s: State)
      returns (r: Outcome, ghost actions: seq<Action>)
      requires Shows(s) && s.response.pc.ResponseIdle? && s.response.queue != [] && s.response.queue[0] == message
      modifies this, repository
      ensures Ran(s, actions) && forall a <- actions :: ResponseAction(a)
      ensures var t := Run(s, actions).value;
              && t.response.pc.ResponseIdle?
              && t.response.queue == if r == Success then s.response.queue[1..] else s.response.queue
      ensures r != Success ==> r == Failure(Unavailable) && fault != NoFault
      ensures !message.accepted || message.rideId == "" || message.driverId == "" ==>
                r == Success && repository.View() == s.db && matchTimers == s.timers && published == s.rideStatus
      ensures r == Success && message.accepted && message.rideId != "" && message.driverId != "" ==>
                match MatchTx(s.db, message.rideId, message.driverId, now)
                case Err(_) => repository.View() == s.db && matchTimers == s.timers && published == s.rideStatus
                case Ok(db) => Announced(s, message.rideId, db, sent) && matchTimers == s.timers - {message.rideId}
    {
      if !message.accepted || message.rideId == "" || message.driverId == "" {
        actions := [ResponseTake(true, now)];
        Extend(s, [], s, actions[0], AckResponse(s));
        return Success, actions;
      }
      r, actions := HandleDriverMatched(message, now, fault, sent, s);
    }

    method HandleDriverMatched(message: DriverResponse, now: int, fault: Fault, sent: bool, ghost s: State)
      returns (r: Outcome, ghost actions: seq<Action>)
      requires Shows(s) && s.response.pc.ResponseIdle? && s.response.queue != [] && s.response.queue[0] == message
      requires !IgnoredResponse(message)
      modifies this, repository
      ensures Ran(s, actions) && forall a <- actions :: ResponseAction(a)
      ensures var t := Run(s, actions).value;
              && t.response.pc.ResponseIdle?
              && t.response.queue == if r == Success then s.response.queue[1..] else s.response.queue
      ensures r != Success ==> r == Failure(Unavailable) && fault != NoFault
      ensures r == Success ==>
                match MatchTx(s.db, message.rideId, message.driverId, now)
                case Err(_) => repository.View() == s.db && matchTimers == s.timers && published == s.rideStatus
                case Ok(db) => Announced(s, message.rideId, db, sent) && matchTimers == s.timers - {message.rideId}
    {
      hide ResponseNext, Next;
      actions := MatchRun(s, now, fault, sent);
      var result := repository.UpdateRideMatched(message.rideId, message.driverId, now, fault);
      if result.Err? {
        if result.error == NotFound || result.error == AlreadyMatched {
          return Success, actions;
        }
        return Failure(result.error), actions;
      }
      ClearMatchingTimeout(message.rideId);
      PublishRideStatus(message.rideId, result.value, sent);
      r := Success;
    }

    /** Reports that stand for a ride status by themselves; AVAILABLE does so only for a ride in progress. */
    static method MapDriverStatusToRideStatus(reported: DriverStatus) returns (status: Status, ok: bool)
      ensures ok <==> forall current :: Target(reported, current).Some?
      ensures ok ==> forall current :: Target(reported, current) == Some(status)
      ensures !ok ==>
                forall current ::
                  Target(reported, current).Some? <==> reported == AVAILABLE && current == InProgress
    {
      match reported {
        case EN_ROUTE => return EnRoute, true;
        case ARRIVED => return Arrived, true;
        case BUSY => return InProgress, true;
        case AVAILABLE =>
          assert Target(reported, Requested).None?;
          return Completed, false;
        case OFFLINE =>
          assert Target(reported, Requested).None?;
          return Requested, false;    // stands for the empty string
      }
    }

    method HandleDriverStatus(message: DriverStatusMessage, readAt: int, now: int, readFault: bool, fault: Fault,
                              sent: bool,
                              ghost s: State)
      returns (r: Outcome, ghost actions: seq<Action>)
      requires Shows(s) && s.status.pc.StatusIdle? && s.status.queue != [] && s.status.queue[0] == message
      modifies this, repository
      ensures Ran(s, actions) && forall a <- actions :: StatusAction(a)
      ensures var t := Run(s, actions).value;
              && t.status.pc.StatusIdle?
              && t.status.queue == if r == Success then s.status.queue[1..] else s.status.queue
      ensures matchTimers == s.timers
      ensures r.Failure? ==> readFault || fault != NoFault
      ensures r == Success ==>
                if Ignored(s.db, message) then repository.View() == s.db && published == s.rideStatus
                else StatusWrittenFor(s, message, readAt, now, sent)
    {
      hide StatusTx, FinalFare, StatusMessageFor, StatusNext, Next, Run;
      ghost var s1 := StatusTaken(s, message.rideId == "" || !readFault, readAt);
      actions := [StatusTake(message.rideId == "" || !readFault, readAt)];
      ghost var take := actions[0];
      if message.rideId == "" {
        return Success, actions;
      }
      var read := repository.GetRide(message.rideId, if readFault then AtSelect else NoFault);
      if read.Err? {
        return if read.error == NotFound then Success else Failure(read.error), actions;
      }
      var newStatus, ok := MapDriverStatusToRideStatus(message.status);
      if !ok {
        if message.status == AVAILABLE && read.value.status == InProgress {
          newStatus := Completed;
        } else {
          return Success, actions;
        }
      }
      if read.value.status == newStatus {
        return Success, actions;
      }
      var finalFare: Option<real> := None;
      if newStatus == Completed {
        var fare := FinalFare(read.value, readAt);
        if fare.Err? {
          return FareFailure, actions;
        }
        finalFare := Some(fare.value);
      }
      r, actions := WriteStatus(message, newStatus, finalFare, now, fault, sent, s1);
      RunAppend(s, [take], actions);
      actions := [take] + actions;
    }

    /**
     The transition was committed, with the final fare of the row read first if it completes the ride, and announced.
     */
    ghost predicate StatusWrittenFor(s: State, message: DriverStatusMessage, readAt: int, now: int, sent: bool)
      requires !Ignored(s.db, message)
      reads this, repository
    {
      var newStatus := Decide(message.status, s.db.rides[message.rideId].status).value;
      var fare := FinalFare(s.db.rides[message.rideId], readAt);
      && (newStatus == Completed ==> fare.Ok?)
      && var charged := if newStatus == Completed then Some(fare.value) else None;
      var tx := StatusTx(s.db, message.rideId, newStatus, message.driverId, charged, now);
      tx.Ok? && Announced(s, message.rideId, tx.value, sent)
    }

    /** The second half of HandleDriverStatus: the write and what follows it. */
    method WriteStatus(message: DriverStatusMessage, newStatus: Status, fare: Option<real>, now: int, fault: Fault,
                       sent: bool,
                       ghost s: State)
      returns (r: Outcome, ghost actions: seq<Action>)
      requires Shows(s) && s.status.queue != [] && s.status.queue[0] == message
      requires s.status.pc.AtStatusWrite? && s.status.pc.newStatus == newStatus && s.status.pc.fare == fare
      modifies this, repository
      ensures Ran(s, actions) && forall a <- actions :: StatusAction(a)
      ensures var t := Run(s, actions).value;
              && t.status.pc.StatusIdle?
              && t.status.queue == if r == Success then s.status.queue[1..] else s.status.queue
      ensures matchTimers == s.timers
      ensures r != Success ==> r.Failure? && (fault != NoFault || message.rideId !in s.db.rides)
      ensures r == Success ==>
                && StatusTx(s.db, message.rideId, newStatus, message.driverId, fare, now).Ok?
                && Announced(s, message.rideId,
                    StatusTx(s.db, message.rideId, newStatus, message.driverId, fare, now).value, sent)
    {
      hide StatusNext, Next;
      actions := WriteRun(s, now, fault, sent);
      var result := repository.UpdateRideStatus(message.rideId, newStatus, message.driverId, fare, now, fault);
      if result.Err? {
        return Failure(result.error), actions;
      }
      PublishRideStatus(message.rideId, result.value, sent);
      r := Success;
    }

    /**
     The body shared by passenger requests and the timeout callback; the refund is the one of the status read first.
     */
    method CancelRide(id: string, passengerId: string, reason: string, now: int, readFault: bool, fault: Fault,
                      sent: bool, ghost call: CallId, ghost s: State)
      returns (r: Outcome, refund: real, ghost actions: seq<Action>)
      requires Shows(s) && call in s.calls
      requires s.calls[call] == AtCancelGet(id, passengerId, if reason == "" then "Cancelled by passenger" else reason)
      modifies this, repository
      ensures Ran(s, actions) && forall a <- actions :: CancelAction(a, call)
      ensures call !in Run(s, actions).value.calls
      ensures repository.View() != s.db ==> id in s.db.rides && MayCancel(s.db.rides[id], passengerId)
      ensures !readFault && id in s.db.rides && !MayCancel(s.db.rides[id], passengerId) ==> r == PassengerMismatch
      ensures r == PassengerMismatch ==>
                && repository.View() == s.db && id in s.db.rides && passengerId != ""
                && s.db.rides[id].passengerId != passengerId
      ensures r == Success ==>
                && id in s.db.rides && MayCancel(s.db.rides[id], passengerId)
                && var ride, why := s.db.rides[id], if reason == "" then "Cancelled by passenger" else reason;
                   && refund == CalculateRefund(ride.status, ride.estimatedFare)
                   && CancelTx(s.db, id, why, refund, now) == Ok(repository.View())
                   && Announced(s, id, repository.View(), sent) && matchTimers == s.timers - {id}
      ensures r != Success ==> matchTimers == s.timers && published == s.rideStatus
      ensures !readFault && fault == NoFault && r == Failure(NotCancellable) ==>
                repository.View() == s.db && id in s.db.rides && s.db.rides[id].status != Requested
      ensures !readFault && fault == NoFault && id in s.db.rides ==>
                r == Success || r == PassengerMismatch || r == Failure(NotCancellable)
    {
      hide CancelNext, Next, Run, CalculateRefund;
      var why := reason;
      if why == "" {
        why := "Cancelled by passenger";
      }
      refund := 0.0;
      ghost var get := CancelRead(call, !readFault);
      ghost var s1 := CancelTaken(s, call, !readFault);
      actions := [get];
      var read := repository.GetRide(id, if readFault then AtSelect else NoFault);
      if read.Err? {
        return Failure(read.error), refund, actions;
      }
      if passengerId != "" && read.value.passengerId != passengerId {
        return PassengerMismatch, refund, actions;
      }
      refund := CalculateRefund(read.value.status, read.value.estimatedFare);
      r, actions := WriteCancel(id, why, refund, now, fault, sent, call, s1);
      RunAppend(s, [get], actions);
      actions := [get] + actions;
    }

    /** Nobody in particular, or the ride's own passenger. */
    ghost predicate MayCancel(ride: Ride, passengerId: string) {
      passengerId == "" || ride.passengerId == passengerId
    }

    method WriteCancel(id: string, reason: string, refund: real, now: int, fault: Fault, sent: bool,
                       ghost call: CallId, ghost s: State)
      returns (r: Outcome, ghost actions: seq<Action>)
      requires Shows(s) && call in s.calls && s.calls[call].AtCancelWrite?
      requires s.calls[call].rideId == id && s.calls[call].reason == reason && s.calls[call].refund == refund
      modifies this, repository
      ensures Ran(s, actions) && forall a <- actions :: CancelAction(a, call)
      ensures call !in Run(s, actions).value.calls
      ensures r == Success ==>
                && CancelTx(s.db, id, reason, refund, now) == Ok(repository.View())
                && Announced(s, id, repository.View(), sent) && matchTimers == s.timers - {id}
      ensures r != Success ==> matchTimers == s.timers && published == s.rideStatus
      ensures r != Success ==>
                && r.Failure? && (r.error != Unavailable ==>
                    CancelTx(s.db, id, reason, refund, now) == Err(r.error) && repository.View() == s.db)
                && (r.error == Unavailable ==> fault != NoFault)
    {
      hide CancelNext, Next;
      actions := CancelRun(s, call, now, fault, sent);
      var result := repository.CancelRide(id, reason, refund, now, fault);
      if result.Err? {
        return Failure(result.error), actions;
      }
      ClearMatchingTimeout(id);
      PublishRideStatus(id, result.value, sent);
      r := Success;
    }
  }
}
