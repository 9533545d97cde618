/**
 Rides that are started or completed more than once, and what that does to the price. A BUSY report restarts a
 completed ride, and nothing ever clears `completed_at` (internal/ride/repository.go), which calculateFinalFare prefers
 to the clock (internal/ride/refund.go).
 */
module LifecycleRestarts {
  import opened Prelude
  import opened Fare
  import opened RideStore
  import opened RideInvariant
  import opened Lifecycle
  import opened LifecycleInvariant
  import opened LifecycleSteps
  import opened LifecycleTheorems
  import opened LifecycleLimits
  import opened LifecycleRuns

  /** Whole minutes since the ride was started, at least one: what a completed ride should be charged. */
  function ElapsedMinutes(start: int, end: int): int {
    var minutes := TruncatedDiv(end - start, NANOSECONDS_PER_MINUTE);
    if minutes < MINIMUM_RIDE_DURATION then MINIMUM_RIDE_DURATION else minutes
  }

  ghost predicate CompletedBefore(events: seq<Event>) {
    exists i :: 0 <= i < |events| && StatusAfter(events[i]) == Completed
  }

  // ----- what a completion time in the row means

  lemma {:induction false} ReplayedFare(events: seq<Event>, fare: real)
    requires WellFormedLog(events, fare)
    ensures Replay(events).finalFare.Some? <==> CompletedBefore(events)
    decreases |events|
  {
    var n := |events| - 1;
    assert Linked(events, 0);
    if n > 0 {
      var front := events[..n];
      assert Linked(events, n) && LegalEvent(events[n], fare);
      forall i | 0 <= i < n ensures Linked(front, i) { assert Linked(events, i); }
      ReplayedFare(front, fare);
      assert StatusAfter(events[n]) == Completed ==> CompletedBefore(events);
      if CompletedBefore(front) {
        var i :| 0 <= i < n && StatusAfter(front[i]) == Completed;
        assert StatusAfter(events[i]) == Completed;
      }
      if CompletedBefore(events) && StatusAfter(events[n]) != Completed {
        var i :| 0 <= i <= n && StatusAfter(events[i]) == Completed;
        assert StatusAfter(front[i]) == Completed;
      }
    }
  }

  /** The row has a completion time and a final fare if and only if its log has a COMPLETED entry. */
  lemma CompletionTimeExactly(s: State, id: string)
    requires Reachable(s) && id in s.db.rides
    ensures s.db.rides[id].completedAt.Some? <==> CompletedBefore(EventsOf(s.db, id))
    ensures s.db.rides[id].finalFare.Some? <==> CompletedBefore(EventsOf(s.db, id))
  {
    hide CallsInv, StatusOk, FareOk, ResponseOk, MessagesInv, TimersInv, OrderInv, CompletedBefore, Replay;
    hide WellFormedLog;
    ReachableInv(s);
    assert RowOk(s.db.rides[id], s.db.log[id]);
    ReplayedFare(s.db.log[id], s.db.rides[id].estimatedFare);
  }

  // ----- the price

  /**
   A ride in progress is charged the minutes since it was started, at every clock reading, if and only if it never
   completed before.
   */
  lemma ChargesElapsedExactly(s: State, id: string)
    requires Reachable(s) && id in s.db.rides && s.db.rides[id].status == InProgress
    ensures var ride := s.db.rides[id];
            && ride.startedAt.Some?
            && ((forall now :: ChargedMinutes(ride, now) == ElapsedMinutes(ride.startedAt.value, now))
                <==> !CompletedBefore(EventsOf(s.db, id)))
  {
    hide CallsInv, StatusOk, FareOk, ResponseOk, MessagesInv, TimersInv, OrderInv, CompletedBefore;
    ReachableInv(s);
    CompletionTimeExactly(s, id);
    var ride := s.db.rides[id];
    assert RowOk(ride, s.db.log[id]);
    if ride.completedAt.Some? {
      var start, end := ride.startedAt.value, ride.completedAt.value;
      var later := start + NANOSECONDS_PER_MINUTE * (ElapsedMinutes(start, end) + 1);
      assert ElapsedMinutes(start, later) == ElapsedMinutes(start, end) + 1;
      assert ChargedMinutes(ride, later) == ElapsedMinutes(start, end);
    }
  }

  /**
   What a completion logs: the fare for the minutes up to now on the first one, up to the last completion on any later
   one.
   */
  lemma CompletionCharges(s: State, now: int, s': State)
    requires Reachable(s) && Next(s, StatusCommit(true, now)) == Some(s') && s.status.pc.newStatus == Completed
    ensures var id := s.status.queue[0].rideId;
            && id in s.db.rides && id in s'.db.rides
            && var ride := s.db.rides[id];
               var end := if CompletedBefore(EventsOf(s.db, id)) then ride.completedAt else Some(s.status.pc.readAt);
               && ride.startedAt.Some? && end.Some?
               && var fare := CalculateFare(ride.rideType, ride.distanceKm,
                   ElapsedMinutes(ride.startedAt.value, end.value));
               && fare.Ok? && s'.db.rides[id].finalFare == Some(fare.value)
               && EventsOf(s'.db, id) ==
                    EventsOf(s.db, id) + [StatusChanged(InProgress, Completed, s.status.queue[0].driverId,
                        Some(fare.value))]
  {
    hide CallsInv, ResponseOk, MessagesInv, TimersInv, OrderInv, CompletedBefore, FinalFare, WellFormedLog, Replay;
    hide Next;
    ReachableInv(s);
    CompletionIsWritten(s, now, s');
    var id := s.status.queue[0].rideId;
    CompletionTimeExactly(s, id);
    assert RowOk(s.db.rides[id], s.db.log[id]);
    FinalFareOf(s.db.rides[id], s.status.pc.readAt);
  }

  lemma FinalFareOf(ride: Ride, now: int)
    requires ride.startedAt.Some?
    ensures FinalFare(ride, now) == CalculateFare(ride.rideType, ride.distanceKm, ElapsedMinutes(
              ride.startedAt.value, if ride.completedAt.Some? then ride.completedAt.value else now))
  {
    hide CalculateFare;
  }

  lemma CompletionIsWritten(s: State, now: int, s': State)
    requires StatusOk(s.db, s.status) && FareOk(s.db, s.status)
    requires Next(s, StatusCommit(true, now)) == Some(s') && s.status.pc.newStatus == Completed
    ensures s.status.queue != [] && s.status.pc.AtStatusWrite?
    ensures var id := s.status.queue[0].rideId;
            && id in s.db.rides && id in s'.db.rides && s.db.rides[id].status == InProgress
            && var fare := FinalFare(s.db.rides[id], s.status.pc.readAt);
               && fare.Ok? && s'.db.rides[id].finalFare == Some(fare.value)
               && EventsOf(s'.db, id) ==
                    EventsOf(s.db, id) + [StatusChanged(InProgress, Completed, s.status.queue[0].driverId,
                        Some(fare.value))]
  {
    hide FinalFare, CreateNext, TimerNext, CancelNext, ResponseNext, DriverNext;
  }

  /**
   A ride that completed before is charged the same at every clock reading: one minute exactly if its last start lies
   after, or less than two minutes before, its last completion. So a restarted ride is charged one minute.
   */
  lemma RestartedRideChargesOneMinute(s: State, id: string, now: int)
    requires Reachable(s) && id in s.db.rides && s.db.rides[id].status == InProgress
    requires CompletedBefore(EventsOf(s.db, id))
    ensures var ride := s.db.rides[id];
            && ride.startedAt.Some? && ride.completedAt.Some?
            && (ChargedMinutes(ride, now) == MINIMUM_RIDE_DURATION
                <==> ride.completedAt.value < ride.startedAt.value + 2 * NANOSECONDS_PER_MINUTE)
            && (ride.completedAt.value <= ride.startedAt.value ==>
                  FinalFare(ride, now) == CalculateFare(ride.rideType, ride.distanceKm, MINIMUM_RIDE_DURATION))
  {
    hide CallsInv, StatusOk, FareOk, ResponseOk, MessagesInv, TimersInv, OrderInv, CompletedBefore, CalculateFare;
    ReachableInv(s);
    CompletionTimeExactly(s, id);
    assert RowOk(s.db.rides[id], s.db.log[id]);
  }

  // ----- runs

  function ReportActions(m: DriverStatusMessage, now: int): seq<Action> {
    [DriverPublish(m), StatusTake(true, now), StatusCommit(true, now), StatusReread(true), StatusPublish(false)]
  }

  function ReportTx(s: State, m: DriverStatusMessage, now: int): Result<Db, RepoError>
    requires m.rideId in s.db.rides && Decide(m.status, s.db.rides[m.rideId].status).Some?
  {
    var ride := s.db.rides[m.rideId];
    var newStatus, fare := Decide(m.status, ride.status).value, FinalFare(ride, now);
    var charged := if newStatus == Completed && fare.Ok? then Some(fare.value) else None;
    StatusTx(s.db, m.rideId, newStatus, m.driverId, charged, now)
  }

  /** The state after an uninterrupted report that moves its ride. */
  function AfterReport(s: State, m: DriverStatusMessage, now: int): State
    requires m.rideId in s.db.rides && Decide(m.status, s.db.rides[m.rideId].status).Some?
  {
    var tx := ReportTx(s, m, now);
    s.(db := if tx.Ok? then tx.value else s.db,
       history := s.history.(handled := s.history.handled[m.rideId := HandledOf(s, m.rideId) + [m.status]]))
  }

  predicate Quiescent(s: State) {
    s.status == StatusConsumer([], StatusIdle, 0)
  }

  lemma ReportReached(s: State, m: DriverStatusMessage, now: int)
    requires Reachable(s) && Quiescent(s) && m.rideId != "" && m.rideId in s.db.rides
    requires m.status == BUSY || m.status == AVAILABLE
    requires Decide(m.status, s.db.rides[m.rideId].status).Some?
    ensures Run(s, ReportActions(m, now)) == Some(AfterReport(s, m, now))
    ensures Reachable(AfterReport(s, m, now)) && Quiescent(AfterReport(s, m, now))
  {
    hide FinalFare, Run, Reachable, Next, Decide, StatusTx;
    var s1 := s.(status := StatusConsumer([m], StatusIdle, 0));
    PublishReached(s, m);
    ReportIsPriced(s, m.rideId, now);
    TakeReached(s1, now);
    var s2 := Taken(s1, now);
    ReportHasRide(s, m, now);
    WriteReached(s2, now);
    assert [m][1..] == [] && HandledOf(s1, m.rideId) == HandledOf(s, m.rideId);
    assert s2.(db := ReportTx(s, m, now).value, status := StatusConsumer([], StatusIdle, 0)) == AfterReport(s, m, now);
    RunAppend(s1, [StatusTake(true, now)], WriteActions(now));
    RunAppend(s, [DriverPublish(m)], [StatusTake(true, now)] + WriteActions(now));
    assert [DriverPublish(m)] + ([StatusTake(true, now)] + WriteActions(now)) == ReportActions(m, now);
    ReachableThen(s, ReportActions(m, now), AfterReport(s, m, now));
  }

  function WriteActions(now: int): seq<Action> {
    [StatusCommit(true, now), StatusReread(true), StatusPublish(false)]
  }

  lemma PublishReached(s: State, m: DriverStatusMessage)
    requires Quiescent(s) && (m.status == BUSY || m.status == AVAILABLE)
    ensures Run(s, [DriverPublish(m)]) == Some(s.(status := StatusConsumer([m], StatusIdle, 0)))
  {
    assert [] + [m] == [m];
    OneStep(s, DriverPublish(m), s.(status := StatusConsumer([m], StatusIdle, 0)));
  }

  lemma WriteReached(s: State, now: int)
    requires s.status.pc.AtStatusWrite? && s.status.queue != []
    requires var m, pc := s.status.queue[0], s.status.pc;
             var tx := StatusTx(s.db, m.rideId, pc.newStatus, m.driverId, pc.fare, now);
             tx.Ok? && m.rideId in tx.value.rides
    ensures var m, pc := s.status.queue[0], s.status.pc;
            var tx := StatusTx(s.db, m.rideId, pc.newStatus, m.driverId, pc.fare, now);
            Run(s, WriteActions(now)) == Some(s.(db := tx.value,
                status := StatusConsumer(s.status.queue[1..], StatusIdle, 0)))
  {
    hide StatusTx, Run;
    StatusWritten(s, true, now);
    var s1 := Run(s, [StatusCommit(true, now)]).value;
    FinishStatus(s1, false);
    RunAppend(s, [StatusCommit(true, now)], [StatusReread(true), StatusPublish(false)]);
    assert [StatusCommit(true, now)] + [StatusReread(true), StatusPublish(false)] == WriteActions(now);
  }

  lemma ReportHasRide(s: State, m: DriverStatusMessage, now: int)
    requires m.rideId in s.db.rides && Decide(m.status, s.db.rides[m.rideId].status).Some?
    ensures ReportTx(s, m, now).Ok? && m.rideId in ReportTx(s, m, now).value.rides
  {
    hide FinalFare;
  }

  /** The write that a report leads to, as it waits. */
  function Taken(s: State, now: int): State
    requires s.status.queue != [] && s.status.queue[0].rideId in s.db.rides
    requires Decide(s.status.queue[0].status, s.db.rides[s.status.queue[0].rideId].status).Some?
  {
    var m := s.status.queue[0];
    var newStatus, fare := Decide(m.status, s.db.rides[m.rideId].status).value, FinalFare(s.db.rides[m.rideId], now);
    var charged := if newStatus == Completed && fare.Ok? then Some(fare.value) else None;
    s.(status := s.status.(pc := AtStatusWrite(newStatus, charged, now)),
       history := s.history.(handled := s.history.handled[m.rideId := HandledOf(s, m.rideId) + [m.status]]))
  }

  lemma TakeReached(s: State, now: int)
    requires s.status.pc.StatusIdle? && s.status.queue != []
    requires s.status.queue[0].rideId != "" && s.status.queue[0].rideId in s.db.rides
    requires Decide(s.status.queue[0].status, s.db.rides[s.status.queue[0].rideId].status).Some?
    requires s.db.rides[s.status.queue[0].rideId].status == InProgress ==>
              FinalFare(s.db.rides[s.status.queue[0].rideId], now).Ok?
    ensures Run(s, [StatusTake(true, now)]) == Some(Taken(s, now))
  {
    hide FinalFare, Run;
    OneStep(s, StatusTake(true, now), Taken(s, now));
  }

  lemma ReportIsPriced(s: State, id: string, now: int)
    requires Reachable(s) && id in s.db.rides
    ensures s.db.rides[id].status == InProgress ==> FinalFare(s.db.rides[id], now).Ok?
  {
    hide FinalFare;
    if s.db.rides[id].status == InProgress { FinalFareAlwaysComputable(s, id, now); }
  }

  function Busy(id: string): DriverStatusMessage {
    DriverStatusMessage("driver", BUSY, id)
  }

  function Available(id: string): DriverStatusMessage {
    DriverStatusMessage("driver", AVAILABLE, id)
  }

  const MINUTE := NANOSECONDS_PER_MINUTE

  /** A ride driven for a minute and completed. */
  lemma CompletedOnce(id: string) returns (s: State)
    requires id != ""
    ensures Reachable(s) && Quiescent(s) && id in s.db.rides
    ensures var ride := s.db.rides[id];
            ride.status == Completed && ride.rideType == "ECONOMY" && ride.distanceKm == 1.0
                && ride.completedAt == Some(MINUTE)
  {
    hide Run, Next, Reachable, CalculateFareEstimate, CalculateFare;
    var c := Created(id);
    CreatedFacts(id);
    ReportReached(c, Busy(id), 0);
    var b := AfterReport(c, Busy(id), 0);
    ReportIsPriced(b, id, MINUTE);
    ReportReached(b, Available(id), MINUTE);
    s := AfterReport(b, Available(id), MINUTE);
  }

  /** COMPLETED is not final: a further BUSY report starts the ride again. */
  lemma CompletedIsNotFinal(id: string) returns (s: State, actions: seq<Action>)
    requires id != ""
    ensures Reachable(s) && id in s.db.rides && s.db.rides[id].status == Completed
    ensures Run(s, actions).Some?
    ensures var t := Run(s, actions).value; id in t.db.rides && t.db.rides[id].status == InProgress
  {
    hide Run, Next, Reachable;
    s := CompletedOnce(id);
    ReportReached(s, Busy(id), 2 * MINUTE);
    actions := ReportActions(Busy(id), 2 * MINUTE);
  }

  /** A ride restarted and driven for an hour ends with the fare of one minute. */
  lemma HourForAMinute(id: string) returns (s: State)
    requires id != ""
    ensures Reachable(s) && id in s.db.rides
    ensures var ride := s.db.rides[id];
            && ride.status == Completed && ride.startedAt == Some(2 * MINUTE) && ride.completedAt == Some(62 * MINUTE)
            && ElapsedMinutes(2 * MINUTE, 62 * MINUTE) == 60
            && CalculateFare(ride.rideType, ride.distanceKm, 1).Ok?
            && ride.finalFare == Some(CalculateFare(ride.rideType, ride.distanceKm, 1).value)
  {
    hide Run, Next, Reachable, CalculateFare;
    var c := CompletedOnce(id);
    ReportReached(c, Busy(id), 2 * MINUTE);
    var b := AfterReport(c, Busy(id), 2 * MINUTE);
    ReportIsPriced(b, id, 62 * MINUTE);
    ReportReached(b, Available(id), 62 * MINUTE);
    s := AfterReport(b, Available(id), 62 * MINUTE);
  }
}
