/**
 What each handler decides and writes, in the terms of the source: statuses, columns, texts and numbers are written out
 here, and the machine's own functions are not used to say them.
 */
module LifecycleDecisions {
  import opened Prelude
  import opened Fare
  import opened RideStore
  import opened RideInvariant
  import opened Lifecycle
  import opened LifecycleInvariant
  import opened LifecycleRuns
  import opened LifecycleFrames
  import opened LifecycleSteps

  // ----- creating (internal/ride/service.go, internal/ride/repository.go)

  /**
   Exactly a fresh ride of a known type, with a passenger, is stored: REQUESTED, with its quote, everything else
   unset.
   */
  lemma CreationWrites(s: State, id: string, passengerId: string, rideType: string, distanceKm: real)
    ensures var next, quote := Next(s, CreateCommit(id, passengerId, rideType, distanceKm)),
              CalculateFareEstimate(rideType, distanceKm);
            && (next.Some? <==> id != "" && id !in s.db.rides && passengerId != "" && quote.Ok?)
            && (next.Some? ==>
                  && Writes(s.db, id, Ride(passengerId, rideType, distanceKm, quote.value.fare, Requested, None, None,
                                           None, None, None, None, None, None),
                            RideRequested(Requested, quote.value.fare), next.value.db)
                  && next.value == s.(db := next.value.db, creating := next.value.creating))
  {
    hide CalculateFareEstimate;
  }

  // ----- the driver-response consumer (internal/ride/consumer.go, internal/ride/service.go)

  /** The response commits a match exactly if it is accepted, names both sides, and the ride is known and REQUESTED. */
  lemma ResponseCommitsExactly(s: State, now: int, s': State)
    requires Next(s, ResponseTake(true, now)) == Some(s')
    ensures s.response.queue != [] && s.response.pc.ResponseIdle?
    ensures var m := s.response.queue[0];
            if m.accepted && m.rideId != "" && m.driverId != "" && m.rideId in s.db.rides
               && s.db.rides[m.rideId].status == Requested
            then
              && m.rideId in s'.db.rides
              && Writes(s.db, m.rideId, s'.db.rides[m.rideId], DriverMatched(Requested, Matched, m.driverId), s'.db)
              && s'.db.rides[m.rideId].status == Matched && s'.db.rides[m.rideId].driverId == Some(m.driverId)
              && s'.db.rides[m.rideId].matchedAt == Some(now)
              && s'.response.pc.AtResponseReread? && s'.response.queue == s.response.queue
            else s'.db == s.db && s'.response.pc.ResponseIdle? && s'.response.queue == s.response.queue[1..]
  {
    hide MatchTx, CreateNext, TimerNext, CancelNext, StatusNext, DriverNext;
    var m := s.response.queue[0];
    MatchWrites(s.db, m.rideId, m.driverId, now);
  }

  // ----- the driver-status consumer

  /** The status a report leads a ride of this status to, if it moves it. */
  ghost predicate Moves(reported: DriverStatus, current: Status, next: Status) {
    && MeansStatus(reported, next) && next != current
    && (reported == AVAILABLE ==> current == InProgress)
  }

  /**
   A report goes on to a write exactly if it moves the ride it names, and to that status; otherwise it is
   acknowledged.
   */
  lemma ReportDecidesExactly(s: State, now: int, s': State)
    requires Reachable(s) && Next(s, StatusTake(true, now)) == Some(s')
    ensures s.status.queue != [] && s.status.pc.StatusIdle? && s'.db == s.db
    ensures var m := s.status.queue[0];
            && (s'.status.pc.AtStatusWrite? <==>
                  && m.rideId != "" && m.rideId in s.db.rides
                  && exists next :: Moves(m.status, s.db.rides[m.rideId].status, next))
            && (s'.status.pc.AtStatusWrite? ==>
                  && Moves(m.status, s.db.rides[m.rideId].status, s'.status.pc.newStatus)
                  && s'.status.queue == s.status.queue)
            && (!s'.status.pc.AtStatusWrite? ==> s'.status.pc.StatusIdle? && s'.status.queue == s.status.queue[1..])
  {
    hide CreateNext, TimerNext, CancelNext, ResponseNext, DriverNext, StatusNext, Decided, RowFacts, WellFormedLog;
    hide CallsInv, StatusOk, FareOk, ResponseOk, MessagesInv, TimersInv, OrderInv;
    ReachableInv(s);
    TakeResult(s, now, s');
    var m := s.status.queue[0];
    if m.rideId != "" && m.rideId in s.db.rides {
      var ride := s.db.rides[m.rideId];
      assert RowOk(ride, s.db.log[m.rideId]);
      if ride.status == InProgress { FinalFareOfRideInProgress(ride, now); }
      DecidedMoves(s.status, ride, now);
    }
  }

  lemma TakeResult(s: State, now: int, s': State)
    requires Next(s, StatusTake(true, now)) == Some(s')
    ensures s.status.queue != [] && s.status.pc.StatusIdle? && s'.db == s.db
    ensures var m := s.status.queue[0];
            s'.status == if m.rideId == ""
                || m.rideId !in s.db.rides then StatusConsumer(s.status.queue[1..], StatusIdle, 0)
                         else Decided(s.status, s.db.rides[m.rideId], now)
  {
    hide Decided, Handling, CreateNext, TimerNext, CancelNext, ResponseNext, DriverNext;
    HandlingTouches(s, s.status.queue[0]);
  }

  lemma DecidedMoves(c: StatusConsumer, ride: Ride, now: int)
    requires c.queue != [] && c.pc.StatusIdle? && (ride.status == InProgress ==> FinalFare(ride, now).Ok?)
    ensures var reported, c' := c.queue[0].status, Decided(c, ride, now);
            && (c'.pc.AtStatusWrite? <==> exists next :: Moves(reported, ride.status, next))
            && (c'.pc.AtStatusWrite? ==> Moves(reported, ride.status, c'.pc.newStatus) && c'.queue == c.queue)
            && (!c'.pc.AtStatusWrite? ==> c'.pc.StatusIdle? && c'.queue == c.queue[1..])
  {
    hide FinalFare;
    var reported := c.queue[0].status;
    assert Moves(reported, ride.status, EnRoute) || Moves(reported, ride.status, Arrived)
        || Moves(reported, ride.status, InProgress) || Moves(reported, ride.status, Completed)
        || Decided(c, ride, now).pc.StatusIdle?;
  }

  /** A committed report writes the status it means, that status's time, and a fare exactly if it completes the ride. */
  lemma ReportWrites(s: State, now: int, s': State)
    requires Reachable(s) && Next(s, StatusCommit(true, now)) == Some(s')
    ensures s.status.queue != [] && s.status.queue[0].rideId in s.db.rides && s.status.queue[0].rideId in s'.db.rides
    ensures var m := s.status.queue[0];
            var was, ride := s.db.rides[m.rideId], s'.db.rides[m.rideId];
            && Moves(m.status, was.status, ride.status)
            && ride.arrivedAt == (if m.status == ARRIVED then Some(now) else was.arrivedAt)
            && ride.startedAt == (if m.status == BUSY then Some(now) else was.startedAt)
            && ride.completedAt == (if m.status == AVAILABLE then Some(now) else was.completedAt)
            && (m.status != AVAILABLE ==> ride.finalFare == was.finalFare)
            && (m.status == AVAILABLE ==> ride.finalFare.Some?)
            && ride.driverId == was.driverId && ride.matchedAt == was.matchedAt && ride.cancelledAt == was.cancelledAt
            && Writes(s.db, m.rideId, ride,
                      StatusChanged(was.status, ride.status, m.driverId, if m.status == AVAILABLE then ride.finalFare
                          else None),
                      s'.db)
  {
    hide CreateNext, TimerNext, CancelNext, ResponseNext, DriverNext, StatusTx;
    hide DbInv, CallsInv, FareOk, ResponseOk, MessagesInv, TimersInv, OrderInv;
    ReachableInv(s);
    var m, pc := s.status.queue[0], s.status.pc;
    StatusWrites(s.db, m.rideId, pc.newStatus, m.driverId, pc.fare, now);
  }

  // ----- cancelling

  /** The reason is the passenger's, or the default text. */
  lemma CancelBegins(s: State, n: nat, id: string, passengerId: string, reason: string, s': State)
    requires Next(s, CancelBegin(n, id, passengerId, reason)) == Some(s')
    ensures HttpCall(n) !in s.calls
    ensures s' == s.(calls := s.calls[HttpCall(n) := AtCancelGet(id, passengerId,
                       if reason == "" then "Cancelled by passenger" else reason)])
  {
  }

  /** The timer's callback goes on to cancel exactly if it finds the ride REQUESTED, with no passenger to check. */
  lemma CallbackReadsExactly(s: State, id: string, s': State)
    requires Next(s, CallbackRead(id, true)) == Some(s')
    ensures if id in s.db.rides && s.db.rides[id].status == Requested
            then s' == s.(calls := s.calls[TimerCall(id) := AtCancelGet(id, "",
                "No driver found within matching timeout")])
            else s' == s.(calls := s.calls - {TimerCall(id)})
  {
  }

  /** A cancellation goes on exactly if the ride is known and, where a passenger is given, is that passenger's. */
  lemma CancelReadsExactly(s: State, k: CallId, s': State)
    requires Next(s, CancelRead(k, true)) == Some(s')
    ensures k in s.calls && s.calls[k].AtCancelGet?
    ensures var pc := s.calls[k];
            if pc.rideId in s.db.rides && (pc.passengerId == "" || s.db.rides[pc.rideId].passengerId == pc.passengerId)
            then
              && k in s'.calls && s'.calls[k].AtCancelWrite? && s'.calls[k].rideId == pc.rideId
              && s'.calls[k].seen == s.db.rides[pc.rideId].status && s'.calls[k].reason == pc.reason
              && s'.calls[k].refund == CalculateRefund(s.db.rides[pc.rideId].status,
                  s.db.rides[pc.rideId].estimatedFare)
              && s' == s.(calls := s.calls[k := s'.calls[k]])
            else s' == s.(calls := s.calls - {k})
  {
    hide CalculateRefund, CreateNext, TimerNext, ResponseNext, StatusNext, DriverNext;
  }

  /** The write cancels exactly a ride that is still REQUESTED or MATCHED. */
  lemma CancelCommitsExactly(s: State, k: CallId, now: int, s': State)
    requires Next(s, CancelCommit(k, true, now)) == Some(s')
    ensures k in s.calls && s.calls[k].AtCancelWrite?
    ensures var pc := s.calls[k];
            if pc.rideId in s.db.rides && (s.db.rides[pc.rideId].status == Requested
                || s.db.rides[pc.rideId].status == Matched)
            then
              && pc.rideId in s'.db.rides
              && Writes(s.db, pc.rideId, s'.db.rides[pc.rideId],
                        RideCancelled(s.db.rides[pc.rideId].status, Cancelled, pc.reason, pc.refund), s'.db)
              && s'.db.rides[pc.rideId].status == Cancelled && s'.db.rides[pc.rideId].reason == Some(pc.reason)
              && s'.db.rides[pc.rideId].cancelledAt == Some(now)
            else s' == s.(calls := s.calls - {k})
  {
    hide CancelTx, CreateNext, TimerNext, ResponseNext, StatusNext, DriverNext;
    var pc := s.calls[k];
    CancelWrites(s.db, pc.rideId, pc.reason, pc.refund, now);
  }

  // ----- the driver service (internal/driverlocation/service.go, internal/driverlocation/handler.go)

  /**
   A ride_status message leads to exactly one EN_ROUTE, for its driver and ride, if it says MATCHED and names both.
   */
  lemma DetailsSentExactly(s: State, s': State)
    requires Next(s, DetailsTake(true)) == Some(s')
    ensures s.rideStatus != [] && s'.rideStatus == s.rideStatus[1..] && s'.db == s.db
    ensures var m := s.rideStatus[0];
            s'.status.queue == s.status.queue
              + if m.status == Matched && m.rideId != "" && m.driverId != ""
                then [DriverStatusMessage(m.driverId, EN_ROUTE, m.rideId)] else []
  {
    assert s.status.queue + [] == s.status.queue;
  }

  /** When the ride's details cannot be sent, the message stays at the head; one that calls for nothing is done with. */
  lemma FailedDetailsWait(s: State, s': State)
    requires Next(s, DetailsTake(false)) == Some(s')
    ensures s.rideStatus != [] && s'.status == s.status && s'.db == s.db
    ensures var m := s.rideStatus[0];
            if m.status == Matched && m.rideId != "" && m.driverId != "" then s'.rideStatus == s.rideStatus
            else s'.rideStatus == s.rideStatus[1..]
  {
  }

  /** An accepted arrival is published as ARRIVED for its driver and ride, at most once. */
  lemma ArrivalIsPublished(s: State, n: nat, ok: bool, s': State)
    requires Next(s, ArrivedPublish(n, ok)) == Some(s')
    ensures n in s.arrivals && n !in s'.arrivals && s'.db == s.db && s'.rideStatus == s.rideStatus
    ensures s'.status.queue
         == s.status.queue + if ok then [DriverStatusMessage(s.arrivals[n].0, ARRIVED, s.arrivals[n].1)] else []
  {
    assert s.status.queue + [] == s.status.queue;
  }

  /** An arrival is accepted exactly from the driver in the row of a ride that is MATCHED or EN_ROUTE. */
  lemma ArrivalAcceptedExactly(s: State, n: nat, driverId: string, id: string)
    requires n !in s.arrivals
    ensures Next(s, ArrivedRead(n, driverId, id)).Some? <==>
              && id != "" && id in s.db.rides && s.db.rides[id].driverId == Some(driverId)
              && (s.db.rides[id].status == Matched || s.db.rides[id].status == EnRoute)
  {
  }
}
