/**
 Every action of the lifecycle machine keeps the invariant: small updates first, then the actions composed of them.
 */
module LifecycleSteps {
  import opened Prelude
  import opened Fare
  import opened RideStore
  import opened RideInvariant
  import opened Lifecycle
  import opened LifecycleInvariant
  import opened LifecycleFrames

  // ----- updates of one actor

  lemma SetCallKeepsTimers(s: State, k: CallId, pc: CallPc)
    requires TimersInv(s)
    requires k.TimerCall? ==> k in s.calls && (BeforeWrite(pc) || LeftRequested(s.db, k.rideId))
    ensures TimersInv(s.(calls := s.calls[k := pc]))
  {
    var s' := s.(calls := s.calls[k := pc]);
    forall id ensures TimerOk(s', id) { assert TimerOk(s, id); }
  }

  lemma SetCallKeepsInv(s: State, k: CallId, pc: CallPc)
    requires Inv(s) && CallOk(s.db, k, pc)
    requires k.TimerCall? ==> k in s.calls && (BeforeWrite(pc) || LeftRequested(s.db, k.rideId))
    ensures Inv(s.(calls := s.calls[k := pc]))
  {
    hide DbInv, StatusOk, FareOk, ResponseOk, TimersInv, OrderInv;
    SetCallKeepsTimers(s, k, pc);
    var s' := s.(calls := s.calls[k := pc]);
    forall k' | k' in s'.calls ensures CallOk(s'.db, k', s'.calls[k']) {
      if k' != k { assert CallOk(s.db, k', s.calls[k']); }
    }
    KeepsOrder(s, s');
  }

  lemma KeepsOrder(s: State, s': State)
    requires OrderInv(s) && s'.db == s.db && s'.status == s.status && s'.history.handled == s.history.handled
    ensures OrderInv(s')
  {
    forall id | id in s'.db.rides ensures OrderOk(HandledOf(s', id), EventsOf(s'.db, id)) {
      assert OrderOk(HandledOf(s, id), EventsOf(s.db, id));
    }
  }

  lemma EndCallKeepsTimers(s: State, k: CallId, failed: bool)
    requires TimersInv(s)
    requires k.TimerCall? && k in s.calls && !failed ==> LeftRequested(s.db, k.rideId)
    ensures TimersInv(if failed then FailCall(s, k) else EndCall(s, k))
  {
    var s' := if failed then FailCall(s, k) else EndCall(s, k);
    forall id ensures TimerOk(s', id) { assert TimerOk(s, id); }
  }

  lemma EndCallKeepsInv(s: State, k: CallId, failed: bool)
    requires Inv(s) && k in s.calls
    requires k.TimerCall? && !failed ==> LeftRequested(s.db, k.rideId)
    ensures Inv(if failed then FailCall(s, k) else EndCall(s, k))
  {
    hide DbInv, StatusOk, FareOk, ResponseOk, TimersInv, OrderInv;
    EndCallKeepsTimers(s, k, failed);
    var s' := if failed then FailCall(s, k) else EndCall(s, k);
    forall k' | k' in s'.calls ensures CallOk(s'.db, k', s'.calls[k']) { assert CallOk(s.db, k', s.calls[k']); }
    KeepsOrder(s, s');
  }

  lemma ClearTimerKeepsTimers(s: State, id: string)
    requires TimersInv(s) && LeftRequested(s.db, id)
    ensures TimersInv(s.(timers := s.timers - {id}))
  {
    var s' := s.(timers := s.timers - {id});
    forall other ensures TimerOk(s', other) { assert TimerOk(s, other); }
  }

  lemma ClearTimerKeepsInv(s: State, id: string)
    requires Inv(s) && LeftRequested(s.db, id)
    ensures Inv(s.(timers := s.timers - {id}))
  {
    hide DbInv, StatusOk, FareOk, ResponseOk, TimersInv, OrderInv;
    ClearTimerKeepsTimers(s, id);
    var s' := s.(timers := s.timers - {id});
    forall k | k in s'.calls ensures CallOk(s'.db, k, s'.calls[k]) { assert CallOk(s.db, k, s.calls[k]); }
    KeepsOrder(s, s');
  }

  lemma AnnounceKeepsInv(s: State, id: string, ride: Ride, ok: bool)
    requires Inv(s) && Snapshot(s.db, id, ride)
    ensures Inv(Announce(s, id, ride, ok))
  {
    var s' := Announce(s, id, ride, ok);
    forall m | m in s'.rideStatus ensures NamesDriver(s'.db, m) {
      if m in s.rideStatus { assert NamesDriver(s.db, m); }
    }
    UnchangedParts(s, s');
  }

  /** Updates of the queues leave calls, timers and order alone. */
  lemma UnchangedParts(s: State, s': State)
    requires CallsInv(s) && TimersInv(s) && OrderInv(s)
    requires s' == s.(rideStatus := s'.rideStatus, arrivals := s'.arrivals, response := s'.response)
    ensures CallsInv(s') && TimersInv(s') && OrderInv(s')
  {
    forall id ensures TimerOk(s', id) { assert TimerOk(s, id); }
    forall k | k in s'.calls ensures CallOk(s'.db, k, s'.calls[k]) { assert CallOk(s.db, k, s.calls[k]); }
    KeepsOrder(s, s');
  }

  lemma SetResponseKeepsInv(s: State, c: ResponseConsumer)
    requires Inv(s) && ResponseOk(s.db, c)
    ensures Inv(s.(response := c))
  {
    UnchangedParts(s, s.(response := c));
  }

  lemma SetStatusKeepsInv(s: State, c: StatusConsumer)
    requires Inv(s) && StatusOk(s.db, c) && FareOk(s.db, c) && HeadHandled(s.(status := c))
    requires forall m <- c.queue :: Agrees(s.db, m)
    ensures Inv(s.(status := c))
  {
    hide DbInv, ResponseOk;
    var s' := s.(status := c);
    forall id ensures TimerOk(s', id) { assert TimerOk(s, id); }
    forall k | k in s'.calls ensures CallOk(s'.db, k, s'.calls[k]) { assert CallOk(s.db, k, s.calls[k]); }
    forall id | id in s'.db.rides ensures OrderOk(HandledOf(s', id), EventsOf(s'.db, id)) {
      assert OrderOk(HandledOf(s, id), EventsOf(s.db, id));
    }
  }

  lemma EnqueueKeepsInv(s: State, m: DriverStatusMessage)
    requires Inv(s) && Agrees(s.db, m)
    ensures Inv(Enqueue(s, m))
  {
    hide DbInv, CallsInv, ResponseOk, TimersInv, Decide, FinalFare;
    var c := s.status.(queue := s.status.queue + [m]);
    if s.status.queue != [] { assert c.queue[0] == s.status.queue[0]; }
    forall m' | m' in c.queue ensures Agrees(s.db, m') {
      if m' in s.status.queue { assert Agrees(s.db, m'); }
    }
    SetStatusKeepsInv(s, c);
  }

  // ----- actions of the ride service

  /** CreateRide's own progress and the timer map move; everything else stands still. */
  lemma CreatingKeepsInv(s: State, s': State)
    requires Inv(s) && TimersInv(s')
    requires s' == s.(creating := s'.creating, timers := s'.timers,
              history := s.history.(created := s'.history.created))
    ensures Inv(s')
  {
    forall k | k in s'.calls ensures CallOk(s'.db, k, s'.calls[k]) { assert CallOk(s.db, k, s.calls[k]); }
    KeepsOrder(s, s');
  }

  lemma CreateKeepsTimers(s: State, a: Action)
    requires TimersInv(s)
    requires a.CreatePublish? || a.CreateArm?
    requires CreateNext(s, a).Some?
    ensures TimersInv(CreateNext(s, a).value)
  {
    var s' := CreateNext(s, a).value;
    forall id ensures TimerOk(s', id) { assert TimerOk(s, id); }
  }

  lemma CreateCommitStep(s: State, a: Action, s': State)
    requires Inv(s) && a.CreateCommit? && CreateNext(s, a) == Some(s')
    ensures Inv(s')
  {
    hide CalculateFareEstimate, CallsInv, StatusOk, FareOk, ResponseOk, MessagesInv, TimersInv, OrderInv;
    hide RowFacts, RowOk, OthersEvolve, TimesOf;
    var quote := CalculateFareEstimate(a.rideType, a.distanceKm).value.fare;
    var ride := NewRide(a.passengerId, a.rideType, a.distanceKm, quote);
    QuoteFacts(a.rideType, a.distanceKm);
    NewRideFacts(a.passengerId, a.rideType, a.distanceKm, quote);
    CreateKeepsInv(s.db, a.id, ride);
    OthersCommit(s, a.id, ride, RideRequested(ride.status, ride.estimatedFare));
    NewlyCreating(s, a.id, s');
    CreatingKeepsInv(s.(db := s'.db), s');
  }

  lemma NewRideFacts(passengerId: string, rideType: string, distanceKm: real, fare: real)
    requires RatesFor(rideType).Some? && distanceKm >= 0.0 && fare >= 0.0
    ensures var ride := NewRide(passengerId, rideType, distanceKm, fare);
            RowFacts(ride) && Project(ride) == Projection(Requested, None, None, None, NO_TIMES)
  {
  }

  lemma QuoteFacts(rideType: string, distanceKm: real)
    requires CalculateFareEstimate(rideType, distanceKm).Ok?
    ensures RatesFor(rideType).Some? && distanceKm >= 0.0
    ensures CalculateFareEstimate(rideType, distanceKm).value.fare >= 0.0
  {
    DurationTracksDistance(distanceKm);
    FareAtLeastMinimum(rideType, distanceKm, EstimateDurationMinutes(distanceKm));
  }

  lemma NewlyCreating(s: State, id: string, s': State)
    requires TimersInv(s) && TimersInv(s.(db := s'.db)) && id !in s.db.rides && id in s'.db.rides
    requires s' == s.(db := s'.db, creating := s.creating[id := AtPublish])
    ensures TimersInv(s')
  {
    forall other ensures TimerOk(s', other) { assert TimerOk(s, other) && TimerOk(s.(db := s'.db), other); }
  }

  lemma CreateStep(s: State, a: Action, s': State)
    requires Inv(s) && (a.CreateCommit? || a.CreatePublish? || a.CreateArm?) && CreateNext(s, a) == Some(s')
    ensures Inv(s')
  {
    hide DbInv, CallsInv, StatusOk, FareOk, ResponseOk, MessagesInv, TimersInv, OrderInv;
    if a.CreateCommit? {
      CreateCommitStep(s, a, s');
    } else {
      CreateKeepsTimers(s, a);
      CreatingKeepsInv(s, s');
    }
  }

  lemma TimerFireKeepsTimers(s: State, id: string)
    requires TimersInv(s) && id in s.timers && s.timers[id]
    ensures TimersInv(s.(timers := s.timers[id := false], calls := s.calls[TimerCall(id) := AtCallbackGet(id)]))
  {
    var s' := s.(timers := s.timers[id := false], calls := s.calls[TimerCall(id) := AtCallbackGet(id)]);
    forall other ensures TimerOk(s', other) { assert TimerOk(s, other); }
  }

  lemma TimerStep(s: State, a: Action, s': State)
    requires Inv(s) && (a.TimerFire? || a.CallbackRead?) && TimerNext(s, a) == Some(s')
    ensures Inv(s')
  {
    hide DbInv, StatusOk, FareOk, ResponseOk, OrderInv;
    var call := TimerCall(a.id);
    assert TimerOk(s, a.id);
    if a.TimerFire? {
      TimerFireKeepsTimers(s, a.id);
      forall k | k in s'.calls ensures CallOk(s'.db, k, s'.calls[k]) {
        if k != call { assert CallOk(s.db, k, s.calls[k]); }
      }
      KeepsOrder(s, s');
    } else if !a.ok {
      EndCallKeepsInv(s, call, true);
    } else if s.db.rides[a.id].status != Requested {
      EndCallKeepsInv(s, call, false);
    } else {
      SetCallKeepsInv(s, call, AtCancelGet(a.id, "", TIMEOUT_REASON));
    }
  }

  lemma CancelCommitStep(s: State, a: Action, s': State)
    requires Inv(s) && a.CancelCommit? && CancelNext(s, a) == Some(s')
    ensures Inv(s')
  {
    hide DbInv, StatusOk, FareOk, ResponseOk, MessagesInv, TimersInv, OrderInv;
    var pc := s.calls[a.call];
    assert CallOk(s.db, a.call, pc);
    if !a.ok {
      EndCallKeepsInv(s, a.call, true);
    } else if CancelTx(s.db, pc.rideId, pc.reason, pc.refund, a.now).Err? {
      EndCallKeepsInv(s, a.call, false);
    } else {
      var ride := s.db.rides[pc.rideId];
      RefundIsInRange(s.db, pc.rideId, pc.seen);
      CancelKeepsInv(s.db, pc.rideId, pc.reason, pc.refund, a.now);
      OthersCommit(s, pc.rideId, ride.(status := Cancelled, reason := Some(pc.reason), cancelledAt := Some(a.now)),
                   RideCancelled(ride.status, Cancelled, pc.reason, pc.refund));
      SetCallKeepsInv(s.(db := s'.db), a.call, AtCancelReread(pc.rideId));
    }
  }

  lemma RefundIsInRange(db: Db, id: string, seen: Status)
    requires DbInv(db) && id in db.rides && SeenEarlier(seen, db.rides[id].status)
    requires db.rides[id].status == Requested || db.rides[id].status == Matched
    ensures RefundInRange(CalculateRefund(seen, db.rides[id].estimatedFare), db.rides[id].status,
              db.rides[id].estimatedFare)
  {
    assert RowOk(db.rides[id], db.log[id]);
    StaleRefundInRange(seen, db.rides[id].status, db.rides[id].estimatedFare);
  }

  lemma CancelReadStep(s: State, a: Action, s': State)
    requires Inv(s) && a.CancelRead? && CancelNext(s, a) == Some(s')
    ensures Inv(s')
  {
    hide DbInv, StatusOk, FareOk, ResponseOk, MessagesInv, TimersInv, OrderInv;
    var pc := s.calls[a.call];
    assert CallOk(s.db, a.call, pc);
    if !a.ok {
      EndCallKeepsInv(s, a.call, true);
    } else if a.call !in s'.calls {
      EndCallKeepsInv(s, a.call, false);
    } else {
      SetCallKeepsInv(s, a.call, s'.calls[a.call]);
    }
  }

  lemma CancelRereadStep(s: State, a: Action, s': State)
    requires Inv(s) && a.CancelReread? && CancelNext(s, a) == Some(s')
    ensures Inv(s')
  {
    hide DbInv, StatusOk, FareOk, ResponseOk, MessagesInv, TimersInv, OrderInv;
    assert CallOk(s.db, a.call, s.calls[a.call]);
    if !a.ok {
      EndCallKeepsInv(s, a.call, false);
    } else {
      SetCallKeepsInv(s, a.call, s'.calls[a.call]);
    }
  }

  lemma CancelClearStep(s: State, a: Action, s': State)
    requires Inv(s) && a.CancelClear? && CancelNext(s, a) == Some(s')
    ensures Inv(s')
  {
    hide DbInv, StatusOk, FareOk, ResponseOk, MessagesInv, TimersInv, OrderInv;
    var pc := s.calls[a.call];
    assert CallOk(s.db, a.call, pc);
    ClearTimerKeepsInv(s, pc.rideId);
    SetCallKeepsInv(s.(timers := s.timers - {pc.rideId}), a.call, AtCancelPublish(pc.rideId, pc.ride));
  }

  lemma CancelPublishStep(s: State, a: Action, s': State)
    requires Inv(s) && a.CancelPublish? && CancelNext(s, a) == Some(s')
    ensures Inv(s')
  {
    hide DbInv, StatusOk, FareOk, ResponseOk, MessagesInv, TimersInv, OrderInv;
    var pc := s.calls[a.call];
    assert CallOk(s.db, a.call, pc);
    AnnounceKeepsInv(s, pc.rideId, pc.ride, a.ok);
    EndCallKeepsInv(Announce(s, pc.rideId, pc.ride, a.ok), a.call, false);
  }

  lemma ResponseTakeStep(s: State, a: Action, s': State)
    requires Inv(s) && a.ResponseTake? && ResponseNext(s, a) == Some(s')
    ensures Inv(s')
  {
    hide DbInv, CallsInv, StatusOk, FareOk, MessagesInv, TimersInv, OrderInv;
    var m := s.response.queue[0];
    if s'.response.pc.AtResponseReread? {
      ResponseCommitStep(s, m, a.now);
    } else {
      SetResponseKeepsInv(s, s'.response);
    }
  }

  lemma ResponseCommitStep(s: State, m: DriverResponse, now: int)
    requires Inv(s) && s.response.queue != [] && s.response.queue[0] == m && !IgnoredResponse(m)
    requires MatchTx(s.db, m.rideId, m.driverId, now).Ok?
    ensures Inv(s.(db := MatchTx(s.db, m.rideId, m.driverId, now).value,
                   response := ResponseConsumer(s.response.queue, AtResponseReread, s.response.commits + 1)))
  {
    hide DbInv, CallsInv, StatusOk, FareOk, MessagesInv, TimersInv, OrderInv;
    var ride := s.db.rides[m.rideId];
    var db := MatchTx(s.db, m.rideId, m.driverId, now).value;
    MatchKeepsInv(s.db, m.rideId, m.driverId, now);
    OthersCommit(s, m.rideId, ride.(status := Matched, driverId := Some(m.driverId), matchedAt := Some(now)),
                 DriverMatched(ride.status, Matched, m.driverId));
    SetResponseKeepsInv(s.(db := db), ResponseConsumer(s.response.queue, AtResponseReread, s.response.commits + 1));
  }

  lemma ResponseRereadStep(s: State, a: Action, s': State)
    requires Inv(s) && a.ResponseReread? && ResponseNext(s, a) == Some(s')
    ensures Inv(s')
  {
    hide DbInv, CallsInv, StatusOk, FareOk, MessagesInv, TimersInv, OrderInv;
    SetResponseKeepsInv(s, s'.response);
  }

  lemma ResponseClearStep(s: State, a: Action, s': State)
    requires Inv(s) && a.ResponseClear? && ResponseNext(s, a) == Some(s')
    ensures Inv(s')
  {
    hide DbInv, CallsInv, StatusOk, FareOk, MessagesInv, TimersInv, OrderInv;
    var id := s.response.queue[0].rideId;
    ClearTimerKeepsInv(s, id);
    SetResponseKeepsInv(s.(timers := s.timers - {id}), s'.response);
  }

  lemma ResponsePublishStep(s: State, a: Action, s': State)
    requires Inv(s) && a.ResponsePublish? && ResponseNext(s, a) == Some(s')
    ensures Inv(s')
  {
    hide DbInv, CallsInv, StatusOk, FareOk, MessagesInv, TimersInv, OrderInv;
    var id, ride := s.response.queue[0].rideId, s.response.pc.ride;
    AnnounceKeepsInv(s, id, ride, a.ok);
    SetResponseKeepsInv(Announce(s, id, ride, a.ok), s'.response);
  }

  // ----- the driver-status consumer

  /** A committed status change that the row and the queue agree with. */
  lemma StatusCommitKeepsDb(s: State, now: int)
    requires DbInv(s.db) && StatusOk(s.db, s.status) && FareOk(s.db, s.status) && s.status.pc.AtStatusWrite?
    requires Agrees(s.db, s.status.queue[0])
    ensures s.db.rides.Keys == s.db.log.Keys
    ensures var m, pc := s.status.queue[0], s.status.pc;
            && StatusTx(s.db, m.rideId, pc.newStatus, m.driverId, pc.fare, now).Ok?
            && var db := StatusTx(s.db, m.rideId, pc.newStatus, m.driverId, pc.fare, now).value;
            && DbInv(db) && DbEvolves(s.db, db) && StatusDone(db, m)
  {
    hide WellFormedLog, Replay, Linked;
    var m, pc := s.status.queue[0], s.status.pc;
    var ride := s.db.rides[m.rideId];
    assert RowOk(ride, s.db.log[m.rideId]);
    if pc.newStatus == Completed { FinalFareOfRideInProgress(ride, pc.readAt); }
    StatusKeepsInv(s.db, m.rideId, pc.newStatus, m.driverId, pc.fare, now);
  }

  /** The new log entry is the newest report and nothing handled before outranks it. */
  lemma ReportedStatusKeepsOrder(handled: seq<DriverStatus>, events: seq<Event>, from: Status, e: Event)
    requires OrderOk(handled, events) && e.StatusChanged? && handled != []
    requires Decide(handled[|handled| - 1], from) == Some(e.newStatus)
    ensures OrderOk(handled, events + [e])
  {
    var last := |handled| - 1;
    assert MessageRank(handled[last]) == Rank(e.newStatus);
    if Orderly(handled) {
      forall i | 0 <= i < |events| && events[i].StatusChanged? ensures Rank(events[i].newStatus) <= Rank(e.newStatus) {
        var j :| 0 <= j < |handled| && MessageRank(handled[j]) == Rank(events[i].newStatus);
        if j < last { assert MessageRank(handled[j]) <= MessageRank(handled[last]); }
      }
    }
  }

  lemma StatusCommitKeepsOrder(s: State, db: Db, e: Event)
    requires OrderInv(s) && s.status.pc.AtStatusWrite? && s.status.queue != []
    requires s.db.rides.Keys == s.db.log.Keys && s.status.queue[0].rideId in s.db.rides && e.StatusChanged?
    requires var id := s.status.queue[0].rideId;
             && Decide(s.status.queue[0].status, s.db.rides[id].status) == Some(e.newStatus)
             && db.rides.Keys == s.db.rides.Keys && db.log == s.db.log[id := s.db.log[id] + [e]]
    ensures forall id <- db.rides :: OrderOk(HandledOf(s, id), EventsOf(db, id))
  {
    var m := s.status.queue[0];
    forall id | id in db.rides ensures OrderOk(HandledOf(s, id), EventsOf(db, id)) {
      assert OrderOk(HandledOf(s, id), EventsOf(s.db, id));
      if id == m.rideId { ReportedStatusKeepsOrder(HandledOf(s, id), EventsOf(s.db, id), s.db.rides[id].status, e); }
    }
  }

  lemma StatusCommitStep(s: State, a: Action, s': State)
    requires Inv(s) && a.StatusCommit? && a.ok && StatusNext(s, a) == Some(s')
    ensures Inv(s')
  {
    hide FinalFare, Decide, DbInv, CallsInv, FareOk, ResponseOk, TimersInv, OrderInv;
    var m, pc := s.status.queue[0], s.status.pc;
    assert Agrees(s.db, m);
    StatusCommitKeepsDb(s, a.now);
    var loggedFare := if pc.newStatus == Completed then pc.fare else None;
    StatusCommitKeepsOrder(s, s'.db, StatusChanged(s.db.rides[m.rideId].status, pc.newStatus, m.driverId, loggedFare));
    StatusCommitKeepsRest(s, s'.db, s'.status);
  }

  lemma StatusCommitKeepsRest(s: State, db: Db, c: StatusConsumer)
    requires Inv(s) && DbInv(db) && DbEvolves(s.db, db)
    requires s.status.queue == c.queue && c.pc.AtStatusReread? && StatusOk(db, c)
    requires forall id <- db.rides :: OrderOk(HandledOf(s, id), EventsOf(db, id))
    ensures Inv(s.(db := db, status := c))
  {
    hide DbInv, ResponseOk;
    var s1 := s.(db := db);
    var s' := s.(db := db, status := c);
    CallsStable(s, db);
    ResponseStable(s.db, db, s.response);
    MessagesStable(s, db);
    TimersStable(s, db);
    forall k | k in s'.calls ensures CallOk(s'.db, k, s'.calls[k]) { assert CallOk(s1.db, k, s1.calls[k]); }
    forall id ensures TimerOk(s', id) { assert TimerOk(s1, id); }
    forall id | id in s'.db.rides ensures OrderOk(HandledOf(s', id), EventsOf(s'.db, id)) {
      assert HandledOf(s', id) == HandledOf(s, id);
    }
  }

  lemma HandlingKeepsOrder(handled: seq<DriverStatus>, next: DriverStatus, events: seq<Event>)
    requires OrderOk(handled, events)
    ensures OrderOk(handled + [next], events)
  {
    var after := handled + [next];
    forall i | 0 <= i < |events| && events[i].StatusChanged? ensures Reported(after, events[i].newStatus) {
      var j :| 0 <= j < |handled| && MessageRank(handled[j]) == Rank(events[i].newStatus);
      assert after[j] == handled[j];
    }
    if Orderly(after) {
      forall i, j | 0 <= i < j < |handled| && handled[i] != OFFLINE && handled[j] != OFFLINE
        ensures MessageRank(handled[i]) <= MessageRank(handled[j])
      {
        assert after[i] == handled[i] && after[j] == handled[j];
      }
    }
  }

  lemma HandlingKeepsInv(s: State, m: DriverStatusMessage)
    requires Inv(s) && s.status.pc.StatusIdle?
    ensures Inv(Handling(s, m))
  {
    hide DbInv, StatusOk, FareOk, ResponseOk;
    var s' := Handling(s, m);
    forall id ensures TimerOk(s', id) { assert TimerOk(s, id); }
    forall k | k in s'.calls ensures CallOk(s'.db, k, s'.calls[k]) { assert CallOk(s.db, k, s.calls[k]); }
    forall id | id in s'.db.rides ensures OrderOk(HandledOf(s', id), EventsOf(s'.db, id)) {
      assert OrderOk(HandledOf(s, id), EventsOf(s.db, id));
      if id == m.rideId { HandlingKeepsOrder(HandledOf(s, id), m.status, EventsOf(s.db, id)); }
    }
  }

  lemma AckStatusKeepsInv(s: State)
    requires Inv(s) && s.status.queue != []
    ensures Inv(AckStatus(s))
  {
    hide DbInv, CallsInv, ResponseOk, TimersInv, OrderInv;
    SetStatusKeepsInv(s, StatusConsumer(s.status.queue[1..], StatusIdle, 0));
  }

  lemma NackStatusKeepsInv(s: State)
    requires Inv(s)
    ensures Inv(NackStatus(s))
  {
    hide DbInv, CallsInv, ResponseOk, TimersInv, OrderInv;
    SetStatusKeepsInv(s, s.status.(pc := StatusIdle));
  }

  /** A message taken up for writing has been decided on the row as it is. */
  lemma TakeDecides(s: State, a: Action, s': State)
    requires a.StatusTake? && StatusNext(s, a) == Some(s') && s'.status.pc.AtStatusWrite?
    requires StatusOk(s.db, s.status)
    ensures s'.status.queue == s.status.queue && s' == Handling(s, s.status.queue[0]).(status := s'.status)
    ensures StatusOk(s'.db, s'.status) && FareOk(s'.db, s'.status) && HeadHandled(s')
  {
    hide Decided, Handling, StatusOk, FareOk, HeadHandled;
    var m := s.status.queue[0];
    HandlingTouches(s, s.status.queue[0]);
    DecidedFacts(s.db, s.status, a.now);
    NewestHandled(s, m, s'.status);
  }

  lemma DecidedFacts(db: Db, c: StatusConsumer, now: int)
    requires c.queue != [] && c.queue[0].rideId in db.rides && c.queue[0].rideId != ""
    requires StatusOk(db, c) && c.pc.StatusIdle?
    ensures var c' := Decided(c, db.rides[c.queue[0].rideId], now);
            c'.pc.AtStatusWrite? ==> c'.queue == c.queue && StatusOk(db, c') && FareOk(db, c')
  {
    hide FinalFare;
  }

  lemma NewestHandled(s: State, m: DriverStatusMessage, c: StatusConsumer)
    requires c.queue != [] && c.queue[0] == m
    ensures HeadHandled(Handling(s, m).(status := c))
  {
  }

  lemma TakeReturns(s: State, a: Action, s': State)
    requires a.StatusTake? && StatusNext(s, a) == Some(s') && !s'.status.pc.AtStatusWrite?
    ensures s.status.queue != [] && s.status.pc.StatusIdle?
    ensures var seen := Handling(s, s.status.queue[0]);
            s' == AckStatus(s) || s' == NackStatus(s) || s' == AckStatus(seen) || s' == NackStatus(seen)
  {
    hide Decide, FinalFare, Handling;
    HandlingTouches(s, s.status.queue[0]);
  }

  lemma StatusTakeStep(s: State, a: Action, s': State)
    requires Inv(s) && a.StatusTake? && StatusNext(s, a) == Some(s')
    ensures Inv(s')
  {
    hide StatusNext, AckStatus, NackStatus, Handling, DbInv, CallsInv, ResponseOk, TimersInv, OrderInv, StatusOk;
    hide FareOk, HeadHandled;
    TakeWasIdle(s, a, s');
    HandlingTouches(s, s.status.queue[0]);
    var seen := Handling(s, s.status.queue[0]);
    HandlingKeepsInv(s, s.status.queue[0]);
    if s'.status.pc.AtStatusWrite? {
      TakeDecides(s, a, s');
      SetStatusKeepsInv(seen, s'.status);
    } else {
      TakeReturns(s, a, s');
      AckStatusKeepsInv(s);
      NackStatusKeepsInv(s);
      AckStatusKeepsInv(seen);
      NackStatusKeepsInv(seen);
    }
  }

  lemma TakeWasIdle(s: State, a: Action, s': State)
    requires a.StatusTake? && StatusNext(s, a) == Some(s')
    ensures s.status.queue != [] && s.status.pc.StatusIdle?
  {
    hide Decide, FinalFare;
  }

  lemma StatusRereadStep(s: State, a: Action, s': State)
    requires Inv(s) && (a.StatusReread? || (a.StatusCommit? && !a.ok)) && StatusNext(s, a) == Some(s')
    ensures Inv(s')
  {
    hide DbInv, CallsInv, ResponseOk, TimersInv, OrderInv, Decide, FinalFare;
    SetStatusKeepsInv(s, s'.status);
  }

  lemma StatusPublishStep(s: State, a: Action, s': State)
    requires Inv(s) && a.StatusPublish? && StatusNext(s, a) == Some(s')
    ensures Inv(s')
  {
    hide DbInv, CallsInv, ResponseOk, TimersInv, OrderInv, MessagesInv, FareOk;
    var id, ride := s.status.queue[0].rideId, s.status.pc.ride;
    AnnounceKeepsInv(s, id, ride, a.ok);
    AckStatusKeepsInv(Announce(s, id, ride, a.ok));
  }

  // ----- the driver service

  lemma QueuesKeepInv(s: State, s': State)
    requires Inv(s) && MessagesInv(s')
    requires s' == s.(rideStatus := s'.rideStatus, arrivals := s'.arrivals)
    ensures Inv(s')
  {
    UnchangedParts(s, s');
  }

  lemma DetailsStep(s: State, a: Action, s': State)
    requires Inv(s) && a.DetailsTake? && DriverNext(s, a) == Some(s')
    ensures Inv(s')
  {
    hide DbInv, CallsInv, StatusOk, FareOk, ResponseOk, TimersInv, OrderInv;
    var m, rest := s.rideStatus[0], s.(rideStatus := s.rideStatus[1..]);
    assert NamesDriver(s.db, m);
    QueuesKeepInv(s, rest);
    if ShouldSendRideDetails(m) && a.ok {
      EnqueueKeepsInv(rest, DriverStatusMessage(m.driverId, EN_ROUTE, m.rideId));
    }
  }

  lemma ArrivedStep(s: State, a: Action, s': State)
    requires Inv(s) && (a.ArrivedRead? || a.ArrivedPublish?) && DriverNext(s, a) == Some(s')
    ensures Inv(s')
  {
    hide DbInv, CallsInv, StatusOk, FareOk, ResponseOk, TimersInv, OrderInv;
    if a.ArrivedRead? {
      QueuesKeepInv(s, s');
    } else {
      var done := s.(arrivals := s.arrivals - {a.n});
      QueuesKeepInv(s, done);
      if a.ok { EnqueueKeepsInv(done, DriverStatusMessage(s.arrivals[a.n].0, ARRIVED, s.arrivals[a.n].1)); }
    }
  }

  lemma ArriveStep(s: State, m: DriverResponse)
    requires Inv(s)
    ensures Inv(s.(response := s.response.(queue := s.response.queue + [m])))
  {
    hide DbInv, CallsInv, StatusOk, FareOk, MessagesInv, TimersInv, OrderInv;
    SetResponseKeepsInv(s, s.response.(queue := s.response.queue + [m]));
  }

  // ----- every action, every run

  lemma NextKeepsInv(s: State, a: Action, s': State)
    requires Inv(s) && Next(s, a) == Some(s')
    ensures Inv(s')
  {
    hide Inv, CreateNext, TimerNext, CancelNext, ResponseNext, StatusNext, DriverNext;
    match a
    case CreateCommit(_, _, _, _) => CreateStep(s, a, s');
    case CreatePublish(_, _) => CreateStep(s, a, s');
    case CreateArm(_) => CreateStep(s, a, s');
    case TimerFire(_) => TimerStep(s, a, s');
    case CallbackRead(_, _) => TimerStep(s, a, s');
    case CancelBegin(n, id, passengerId, reason) => SetCallKeepsInv(s, HttpCall(n), s'.calls[HttpCall(n)]);
    case CancelRead(_, _) => CancelReadStep(s, a, s');
    case CancelCommit(_, _, _) => CancelCommitStep(s, a, s');
    case CancelReread(_, _) => CancelRereadStep(s, a, s');
    case CancelClear(_) => CancelClearStep(s, a, s');
    case CancelPublish(_, _) => CancelPublishStep(s, a, s');
    case ResponseArrive(m) => ArriveStep(s, m);
    case ResponseTake(_, _) => ResponseTakeStep(s, a, s');
    case ResponseReread(_) => ResponseRereadStep(s, a, s');
    case ResponseClear => ResponseClearStep(s, a, s');
    case ResponsePublish(_) => ResponsePublishStep(s, a, s');
    case DriverPublish(m) => DriverPublishStep(s, a, s');
    case StatusTake(_, _) => StatusTakeStep(s, a, s');
    case StatusCommit(ok, _) => if ok { StatusCommitStep(s, a, s'); } else { StatusRereadStep(s, a, s'); }
    case StatusReread(_) => StatusRereadStep(s, a, s');
    case StatusPublish(_) => StatusPublishStep(s, a, s');
    case DetailsTake(_) => DetailsStep(s, a, s');
    case ArrivedRead(_, _, _) => ArrivedStep(s, a, s');
    case ArrivedPublish(_, _) => ArrivedStep(s, a, s');
  }

  lemma DriverPublishStep(s: State, a: Action, s': State)
    requires Inv(s) && a.DriverPublish? && DriverNext(s, a) == Some(s')
    ensures Inv(s')
  {
    hide Inv;
    EnqueueKeepsInv(s, a.message);
  }

  lemma InitInv()
    ensures Inv(Init())
  {
  }

  lemma {:induction false} RunKeepsInv(s: State, actions: seq<Action>)
    requires Inv(s) && Run(s, actions).Some?
    ensures Inv(Run(s, actions).value)
    decreases |actions|
  {
    hide Inv, Next;
    if actions != [] {
      var s' := Next(s, actions[0]).value;
      NextKeepsInv(s, actions[0], s');
      RunKeepsInv(s', actions[1..]);
    }
  }

  /** A state some run from the empty system ends in. */
  ghost predicate Reachable(s: State) {
    exists actions: seq<Action> :: Run(Init(), actions) == Some(s)
  }

  lemma ReachableInv(s: State)
    requires Reachable(s)
    ensures Inv(s)
  {
    var actions: seq<Action> :| Run(Init(), actions) == Some(s);
    InitInv();
    RunKeepsInv(Init(), actions);
  }

  lemma ReachableThen(s: State, actions: seq<Action>, t: State)
    requires Reachable(s) && Run(s, actions) == Some(t)
    ensures Reachable(t)
  {
    hide Next, Run;
    var before: seq<Action> :| Run(Init(), before) == Some(s);
    RunAppend(Init(), before, actions);
    assert Run(Init(), before + actions) == Some(t);
  }
}
