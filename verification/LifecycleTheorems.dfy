/** What every run of the two services guarantees. Each statement is about an arbitrary reachable state or run. */
module LifecycleTheorems {
  import opened Prelude
  import opened Fare
  import opened RideStore
  import opened RideInvariant
  import opened Lifecycle
  import opened LifecycleInvariant
  import opened LifecycleRuns
  import opened LifecycleFrames
  import opened LifecycleSteps

  // ----- how rows and logs develop along a run

  ghost predicate LogsGrow(before: Db, after: Db) {
    forall id <- before.log :: id in after.log && before.log[id] <= after.log[id]
  }

  lemma NextEvolves(s: State, a: Action, s': State)
    requires Inv(s) && Next(s, a) == Some(s')
    ensures DbEvolves(s.db, s'.db) && LogsGrow(s.db, s'.db)
    ensures !a.StatusCommit? ==> OthersEvolve(s.db, s'.db)
  {
    if a.CreateCommit? {
      CreateEvolves(s, a, s');
    } else if a.CancelCommit? {
      CancelEvolves(s, a, s');
    } else if a.ResponseTake? {
      ResponseEvolves(s, a, s');
    } else if a.StatusCommit? {
      StatusEvolves(s, a, s');
    } else {
      NextQuiet(s, a, s');
    }
  }

  /** What no action does besides its own job: forget a creation, or arm a timer other than its creator's. */
  ghost predicate Quiet(s: State, s': State) {
    && s.history.created <= s'.history.created
    && (forall id <- s'.timers :: s'.timers[id] ==>
          (id in s.timers && s.timers[id]) || (id in s.creating && s.creating[id] == AtArm))
  }

  lemma NextQuiet(s: State, a: Action, s': State)
    requires Next(s, a) == Some(s')
    ensures Quiet(s, s')
    ensures a.CreateCommit? || a.CancelCommit? || a.ResponseTake? || a.StatusCommit? || s'.db == s.db
    ensures a.CancelClear? || a.ResponseClear? || s.timers.Keys <= s'.timers.Keys
  {
    hide CreateNext, TimerNext, CancelNext, ResponseNext, StatusNext, DriverNext;
    if a.CreateCommit? || a.CreatePublish? || a.CreateArm? { CreateQuiet(s, a, s'); }
    else if a.TimerFire? || a.CallbackRead? { TimerQuiet(s, a, s'); }
    else if a.CancelRead? || a.CancelCommit? || a.CancelReread? || a.CancelClear?
        || a.CancelPublish? { CancelQuiet(s, a, s'); }
    else if a.ResponseTake? || a.ResponseReread? || a.ResponseClear? || a.ResponsePublish? { ResponseQuiet(s, a, s'); }
    else if a.StatusTake? || a.StatusCommit? || a.StatusReread? || a.StatusPublish? { StatusQuiet(s, a, s'); }
    else if !a.CancelBegin? && !a.ResponseArrive? { DriverQuiet(s, a, s'); }
  }

  lemma CreateQuiet(s: State, a: Action, s': State)
    requires (a.CreateCommit? || a.CreatePublish? || a.CreateArm?) && CreateNext(s, a) == Some(s')
    ensures Quiet(s, s') && (a.CreateCommit? || s'.db == s.db) && s.timers.Keys <= s'.timers.Keys
  {
    hide CalculateFareEstimate;
  }

  lemma TimerQuiet(s: State, a: Action, s': State)
    requires (a.TimerFire? || a.CallbackRead?) && TimerNext(s, a) == Some(s')
    ensures Quiet(s, s') && s'.db == s.db && s.timers.Keys <= s'.timers.Keys
  {
  }

  lemma CancelQuiet(s: State, a: Action, s': State)
    requires CancelStep(a) && CancelNext(s, a) == Some(s')
    ensures Quiet(s, s') && (a.CancelCommit? || s'.db == s.db) && (a.CancelClear? || s'.timers == s.timers)
  {
    hide CancelNext;
    CancelTouches(s, a, s');
  }

  lemma ResponseQuiet(s: State, a: Action, s': State)
    requires ResponseAction(a) && ResponseNext(s, a) == Some(s')
    ensures Quiet(s, s') && (a.ResponseTake? || s'.db == s.db) && (a.ResponseClear? || s'.timers == s.timers)
  {
    hide ResponseNext;
    ResponseTouches(s, a, s');
  }

  lemma StatusQuiet(s: State, a: Action, s': State)
    requires StatusAction(a) && StatusNext(s, a) == Some(s')
    ensures Quiet(s, s') && (a.StatusCommit? || s'.db == s.db) && s'.timers == s.timers
  {
    hide StatusNext;
    StatusTouches(s, a, s');
  }

  lemma DriverQuiet(s: State, a: Action, s': State)
    requires DriverAction(a) && DriverNext(s, a) == Some(s')
    ensures Quiet(s, s') && s'.db == s.db && s.timers.Keys <= s'.timers.Keys
  {
    hide DriverNext;
    DriverTouches(s, a, s');
  }

  lemma CreateEvolves(s: State, a: Action, s': State)
    requires Inv(s) && a.CreateCommit? && CreateNext(s, a) == Some(s')
    ensures OthersEvolve(s.db, s'.db) && LogsGrow(s.db, s'.db)
  {
    hide CalculateFareEstimate, CallsInv, StatusOk, FareOk, ResponseOk, MessagesInv, TimersInv, OrderInv;
    QuoteFacts(a.rideType, a.distanceKm);
    CreateKeepsInv(s.db, a.id, NewRide(a.passengerId, a.rideType, a.distanceKm,
        CalculateFareEstimate(a.rideType, a.distanceKm).value.fare));
  }

  lemma CancelEvolves(s: State, a: Action, s': State)
    requires Inv(s) && a.CancelCommit? && CancelNext(s, a) == Some(s')
    ensures OthersEvolve(s.db, s'.db) && LogsGrow(s.db, s'.db)
  {
    hide DbInv, StatusOk, FareOk, ResponseOk, MessagesInv, TimersInv, OrderInv;
    var pc := s.calls[a.call];
    assert CallOk(s.db, a.call, pc);
    if a.ok && CancelTx(s.db, pc.rideId, pc.reason, pc.refund, a.now).Ok? {
      RefundIsInRange(s.db, pc.rideId, pc.seen);
      CancelKeepsInv(s.db, pc.rideId, pc.reason, pc.refund, a.now);
    }
  }

  lemma ResponseEvolves(s: State, a: Action, s': State)
    requires Inv(s) && a.ResponseTake? && ResponseNext(s, a) == Some(s')
    ensures OthersEvolve(s.db, s'.db) && LogsGrow(s.db, s'.db)
  {
    hide DbInv, CallsInv, StatusOk, FareOk, MessagesInv, TimersInv, OrderInv;
    var m := s.response.queue[0];
    if !IgnoredResponse(m) && a.ok && MatchTx(s.db, m.rideId, m.driverId, a.now).Ok? {
      MatchKeepsInv(s.db, m.rideId, m.driverId, a.now);
    }
  }

  lemma StatusEvolves(s: State, a: Action, s': State)
    requires Inv(s) && a.StatusCommit? && StatusNext(s, a) == Some(s')
    ensures DbEvolves(s.db, s'.db) && LogsGrow(s.db, s'.db)
  {
    hide DbInv, CallsInv, ResponseOk, TimersInv, OrderInv, FinalFare, WithStatus, Decide, StatusDone, MeansStatus;
    if a.ok {
      assert Agrees(s.db, s.status.queue[0]);
      StatusCommitKeepsDb(s, a.now);
    }
  }

  /** Along any run rows only evolve and logs only grow. */
  lemma {:induction false} RunEvolves(s: State, actions: seq<Action>, s': State)
    requires Inv(s) && Run(s, actions) == Some(s')
    ensures DbEvolves(s.db, s'.db) && LogsGrow(s.db, s'.db) && Inv(s')
    decreases |actions|
  {
    hide Inv, Next;
    if actions != [] {
      var mid := Next(s, actions[0]).value;
      NextKeepsInv(s, actions[0], mid);
      NextEvolves(s, actions[0], mid);
      RunEvolves(mid, actions[1..], s');
    }
  }

  // ----- completion

  /** Although check and write are separate transactions, a ride completes only out of IN_PROGRESS. */
  lemma CompletedOnlyFromInProgress(s: State, id: string, i: nat)
    requires Reachable(s) && i < |EventsOf(s.db, id)|
    requires StatusAfter(EventsOf(s.db, id)[i]) == Completed
    ensures var events := EventsOf(s.db, id);
            && i > 0 && events[i].StatusChanged? && events[i].oldStatus == InProgress
            && StatusAfter(events[i - 1]) == InProgress && events[i].finalFare.Some?
  {
    ReachableInv(s);
    assert RowOk(s.db.rides[id], s.db.log[id]) && Linked(s.db.log[id], i);
    assert i > 0 ==> LegalEvent(s.db.log[id][i], s.db.rides[id].estimatedFare);
  }

  /**
   Whenever the consumer computes a final fare there is a start time and a known type: no error, at least a minute, at
   least base plus a minute.
   */
  lemma FinalFareAlwaysComputable(s: State, id: string, now: int)
    requires Reachable(s) && id in s.db.rides && s.db.rides[id].status == InProgress
    ensures var ride := s.db.rides[id];
            && ride.startedAt.Some? && RatesFor(ride.rideType).Some?
            && ChargedMinutes(ride, now) >= 1
            && FinalFare(ride, now).Ok?
            && FinalFare(ride, now).value >= MinimumFare(RatesFor(ride.rideType).value)
  {
    ReachableInv(s);
    assert RowOk(s.db.rides[id], s.db.log[id]);
    FinalFareOfRideInProgress(s.db.rides[id], now);
  }

  lemma CompletedRideIsSettled(s: State, id: string)
    requires Reachable(s) && id in s.db.rides && s.db.rides[id].status == Completed
    ensures var ride := s.db.rides[id];
            && ride.startedAt.Some? && ride.completedAt.Some? && ride.finalFare.Some? && RatesFor(ride.rideType).Some?
            && ride.finalFare.value >= MinimumFare(RatesFor(ride.rideType).value)
  {
    ReachableInv(s);
    assert RowOk(s.db.rides[id], s.db.log[id]);
  }

  // ----- cancellation and matching

  /** Every recorded refund is at least the refund for the status found under the lock, and at most the full fare. */
  lemma NeverUnderRefunds(s: State, id: string, i: nat)
    requires Reachable(s) && id in s.db.rides && i < |EventsOf(s.db, id)| && EventsOf(s.db, id)[i].RideCancelled?
    ensures var e, fare := EventsOf(s.db, id)[i], s.db.rides[id].estimatedFare;
            && (e.oldStatus == Requested || e.oldStatus == Matched)
            && CalculateRefund(e.oldStatus, fare) <= e.refund <= Round2(fare)
            && 0.8 * fare - 0.005 <= e.refund <= fare + 0.005
            && (e.oldStatus == Requested ==> fare - 0.005 <= e.refund)
  {
    RefundInNumbers(EventsOf(s.db, id)[i].oldStatus, s.db.rides[id].estimatedFare);
    RoundNear(s.db.rides[id].estimatedFare);
    ReachableInv(s);
    assert RowOk(s.db.rides[id], s.db.log[id]) && Linked(s.db.log[id], i);
    assert i > 0 ==> LegalEvent(s.db.log[id][i], s.db.rides[id].estimatedFare);
  }

  /**
   The status a successful cancellation based its refund on was itself a cancellable one, not later than the locked
   one.
   */
  lemma SuccessfulCancelSawCancellable(s: State, a: Action, s': State)
    requires Reachable(s) && a.CancelCommit? && Next(s, a) == Some(s') && s'.db != s.db
    ensures var pc := s.calls[a.call];
            && pc.rideId in s.db.rides
            && var ride := s.db.rides[pc.rideId];
            && (pc.seen == Requested || pc.seen == Matched) && (ride.status == Requested ==> pc.seen == Requested)
            && EventsOf(s'.db, pc.rideId) == EventsOf(s.db, pc.rideId)
                 + [RideCancelled(ride.status, Cancelled, pc.reason, CalculateRefund(pc.seen, ride.estimatedFare))]
  {
    hide CreateNext, TimerNext, ResponseNext, StatusNext, DriverNext;
    hide DbInv, StatusOk, FareOk, ResponseOk, MessagesInv, TimersInv, OrderInv, CalculateRefund;
    ReachableInv(s);
    assert CallOk(s.db, a.call, s.calls[a.call]);
  }

  /** One match, one cancellation, in that order: racing responses, cancels and timeouts leave at most these entries. */
  lemma OneMatchOneCancel(s: State, id: string)
    requires Reachable(s) && id in s.db.rides
    ensures var events := EventsOf(s.db, id);
            && (forall i :: 0 <= i < |events| && events[i].DriverMatched? ==> i == 1)
            && (forall i, j | 0 <= i < |events| && 0 <= j < |events| ::
                  events[i].RideCancelled? && events[j].RideCancelled? ==> i == j)
            && (forall i, j | 0 <= i < |events| && 0 <= j < |events| ::
                  events[i].DriverMatched? && events[j].RideCancelled? ==> i < j)
    ensures s.db.rides[id].matchedAt.Some? <==> s.db.rides[id].driverId.Some?
  {
    ReachableInv(s);
    var ride, events := s.db.rides[id], s.db.log[id];
    assert RowOk(ride, events);
    forall i | 0 <= i < |events|
      ensures events[i].DriverMatched? ==> i == 1
      ensures events[i].RideCancelled? ==> i == 1 || (i == 2 && events[1].DriverMatched?)
    {
      EarlyStatuses(events, ride.estimatedFare, i);
    }
  }

  lemma {:induction false} ReplayedDriver(events: seq<Event>, fare: real)
    requires WellFormedLog(events, fare)
    ensures Replay(events).driverId ==
            if |events| > 1 && events[1].DriverMatched? then Some(events[1].driverId) else None
    decreases |events|
  {
    var last := |events| - 1;
    var front := events[..last];
    EarlyStatuses(events, fare, last);
    if last == 0 {
      assert Linked(events, 0);
    } else {
      assert Linked(events, last);
      forall i | 0 <= i < last ensures Linked(front, i) { assert Linked(events, i); }
      forall i | 0 < i < last ensures LegalEvent(front[i], fare) { assert LegalEvent(events[i], fare); }
      ReplayedDriver(front, fare);
    }
  }

  /** The driver of a row is the one of its DRIVER_MATCHED entry, and that never changes again. */
  lemma DriverWrittenOnce(s: State, id: string, actions: seq<Action>, later: State)
    requires Reachable(s) && id in s.db.rides && Run(s, actions) == Some(later)
    ensures var events := EventsOf(s.db, id);
            s.db.rides[id].driverId == if |events| > 1 && events[1].DriverMatched? then Some(events[1].driverId)
                else None
    ensures id in later.db.rides
    ensures s.db.rides[id].driverId.Some? ==> later.db.rides[id].driverId == s.db.rides[id].driverId
  {
    ReachableInv(s);
    RunEvolves(s, actions, later);
    assert RowOk(s.db.rides[id], s.db.log[id]);
    ReplayedDriver(s.db.log[id], s.db.rides[id].estimatedFare);
  }

  // ----- agreement between the two services

  /** From the moment an EN_ROUTE or ARRIVED message is published its driver is the driver of the row, for ever. */
  lemma CrossServiceAgreement(s: State, m: DriverStatusMessage, actions: seq<Action>, later: State)
    requires Reachable(s) && m in s.status.queue && (m.status == EN_ROUTE || m.status == ARRIVED)
    requires Run(s, actions) == Some(later)
    ensures m.rideId in later.db.rides && later.db.rides[m.rideId].driverId == Some(m.driverId)
  {
    ReachableInv(s);
    assert Agrees(s.db, m);
    RunEvolves(s, actions, later);
  }

  /** A ride that is matched, on its way or waiting has a driver. */
  lemma AssignedStatusHasDriver(s: State, id: string)
    requires Reachable(s) && id in s.db.rides
    requires s.db.rides[id].status == Matched || s.db.rides[id].status == EnRoute || s.db.rides[id].status == Arrived
    ensures s.db.rides[id].driverId.Some?
    ensures |EventsOf(s.db, id)| > 1
              && EventsOf(s.db, id)[1] == DriverMatched(Requested, Matched, s.db.rides[id].driverId.value)
  {
    ReachableInv(s);
    var ride, events := s.db.rides[id], s.db.log[id];
    assert RowOk(ride, events);
    ReplayedDriver(events, ride.estimatedFare);
    assert |events| > 1 ==> LegalEvent(events[1], ride.estimatedFare);
  }

  // ----- the audit log

  /** The log starts with the request, is chained, and folds to the row. */
  lemma LogReplaysToRow(s: State, id: string)
    requires Reachable(s)
    ensures id in s.db.rides <==> id in s.db.log
    ensures id in s.db.rides ==>
              var ride, events := s.db.rides[id], EventsOf(s.db, id);
              && events != [] && events[0].RideRequested?
              && (forall i :: 0 < i < |events| ==>
                  !events[i].RideRequested? && events[i].oldStatus == StatusAfter(events[i - 1]))
              && Replay(events) == Projection(ride.status, ride.driverId, ride.finalFare, ride.reason, TimesOf(ride))
  {
    ReachableInv(s);
    if id in s.db.rides {
      var events := s.db.log[id];
      assert RowOk(s.db.rides[id], events) && Linked(events, 0);
      forall i | 0 < i < |events| ensures !events[i].RideRequested?
          && events[i].oldStatus == StatusAfter(events[i - 1]) {
        assert Linked(events, i);
      }
    }
  }

  ghost predicate HasReached(events: seq<Event>, status: Status) {
    exists i :: 0 <= i < |events| && StatusAfter(events[i]) == status
  }

  lemma {:induction false} ReplayedTimes(events: seq<Event>, fare: real)
    requires WellFormedLog(events, fare)
    ensures Replay(events).times == Times(HasReached(events, Matched), HasReached(events, Arrived),
                                          HasReached(events, InProgress), HasReached(events, Completed),
                                          HasReached(events, Cancelled))
    decreases |events|
  {
    hide HasReached;
    var n := |events| - 1;
    assert Linked(events, 0);
    if n == 0 {
      assert events == [] + [events[0]];
      ReachedAppend([], events[0]);
    } else {
      var front := events[..n];
      assert Linked(events, n) && front + [events[n]] == events;
      forall i | 0 <= i < n ensures Linked(front, i) { assert Linked(events, i); }
      ReplayedTimes(front, fare);
      ReachedAppend(front, events[n]);
    }
  }

  lemma ReachedAppend(events: seq<Event>, e: Event)
    ensures forall status :: HasReached(events + [e], status)
              <==> HasReached(events, status) || StatusAfter(e) == status
    ensures events == [] ==> forall status :: !HasReached(events, status)
  {
    forall status ensures HasReached(events + [e], status) <==> HasReached(events, status) || StatusAfter(e) == status {
      if HasReached(events, status) {
        var i :| 0 <= i < |events| && StatusAfter(events[i]) == status;
        assert StatusAfter((events + [e])[i]) == status;
      }
      if StatusAfter(e) == status { assert StatusAfter((events + [e])[|events|]) == status; }
      if HasReached(events + [e], status) && StatusAfter(e) != status {
        var i :| 0 <= i <= |events| && StatusAfter((events + [e])[i]) == status;
        assert StatusAfter(events[i]) == status;
      }
    }
  }

  /** Each time column is set if and only if the log has an entry that reaches its status. */
  lemma TimesFollowLog(s: State, id: string)
    requires Reachable(s) && id in s.db.rides
    ensures var ride, events := s.db.rides[id], EventsOf(s.db, id);
            && (ride.matchedAt.Some? <==> HasReached(events, Matched))
            && (ride.arrivedAt.Some? <==> HasReached(events, Arrived))
            && (ride.startedAt.Some? <==> HasReached(events, InProgress))
            && (ride.completedAt.Some? <==> HasReached(events, Completed))
            && (ride.cancelledAt.Some? <==> HasReached(events, Cancelled))
            && events != [] && events[0] == RideRequested(Requested, ride.estimatedFare)
  {
    hide CallsInv, StatusOk, FareOk, ResponseOk, MessagesInv, TimersInv, OrderInv, HasReached, Replay;
    ReachableInv(s);
    assert RowOk(s.db.rides[id], s.db.log[id]) && Linked(s.db.log[id], 0);
    ReplayedTimes(s.db.log[id], s.db.rides[id].estimatedFare);
  }

  // ----- no stuck request

  /** After CreateRide succeeded, a ride still REQUESTED is being watched, unless the database failed its callback. */
  lemma NoStuckRequest(s: State, id: string)
    requires Reachable(s) && id in s.history.created && id !in s.history.abandoned
    requires id in s.db.rides ==> s.db.rides[id].status == Requested
    ensures (id in s.timers && s.timers[id]) || CallbackRunning(s, id)
  {
    ReachableInv(s);
    assert TimerOk(s, id);
  }

  /** A callback that gets through without a repository failure leaves the ride resolved, whatever raced with it. */
  lemma CallbackResolves(s: State, a: Action, s': State, id: string, actions: seq<Action>, later: State)
    requires Reachable(s) && Next(s, a) == Some(s') && Run(s', actions) == Some(later)
    requires CallbackRunning(s, id) && !CallbackRunning(s', id) && s'.history.abandoned == s.history.abandoned
    requires id !in s.history.abandoned
    ensures id in later.db.rides && later.db.rides[id].status != Requested
  {
    ReachableInv(s);
    NextKeepsInv(s, a, s');
    RunEvolves(s', actions, later);
    CallbackEnds(s, a, s', id);
  }

  lemma CallbackEnds(s: State, a: Action, s': State, id: string)
    requires TimersInv(s) && TimersInv(s') && Next(s, a) == Some(s')
    requires CallbackRunning(s, id) && !CallbackRunning(s', id) && id !in s'.history.abandoned
    ensures LeftRequested(s'.db, id)
  {
    hide Next;
    assert TimerOk(s, id) && TimerOk(s', id);
    NextQuiet(s, a, s');
  }

  /** A matching timer is only ever removed once REQUESTED has been left for good. */
  lemma TimersClearedLate(s: State, a: Action, s': State, id: string, actions: seq<Action>, later: State)
    requires Reachable(s) && Next(s, a) == Some(s') && Run(s', actions) == Some(later)
    requires id in s.timers && id !in s'.timers
    ensures id in later.db.rides && later.db.rides[id].status != Requested
  {
    ReachableInv(s);
    NextKeepsInv(s, a, s');
    RunEvolves(s', actions, later);
    assert TimerOk(s, id);
    ClearedAfterLeaving(s, a, s', id);
    NextEvolves(s, a, s');
  }

  lemma ClearedAfterLeaving(s: State, a: Action, s': State, id: string)
    requires Inv(s) && Next(s, a) == Some(s') && id in s.timers && id !in s'.timers
    ensures LeftRequested(s.db, id)
  {
    hide CreateNext, TimerNext, StatusNext, DriverNext, CancelNext, ResponseNext, Inv;
    NextQuiet(s, a, s');
    if a.CancelClear? { CancelClearsLate(s, a, s', id); } else { ResponseClearsLate(s, a, s', id); }
  }

  lemma CancelClearsLate(s: State, a: Action, s': State, id: string)
    requires Inv(s) && a.CancelClear? && CancelNext(s, a) == Some(s') && id in s.timers && id !in s'.timers
    ensures LeftRequested(s.db, id)
  {
    hide DbInv, StatusOk, FareOk, ResponseOk, MessagesInv, TimersInv, OrderInv;
    assert CallOk(s.db, a.call, s.calls[a.call]);
  }

  lemma ResponseClearsLate(s: State, a: Action, s': State, id: string)
    requires Inv(s) && a.ResponseClear? && ResponseNext(s, a) == Some(s') && id in s.timers && id !in s'.timers
    ensures LeftRequested(s.db, id)
  {
    hide DbInv, CallsInv, StatusOk, FareOk, MessagesInv, TimersInv, OrderInv;
  }

  // ----- the consumers

  /** However often a message is delivered, at most one transaction is committed on its behalf. */
  lemma AtMostOneCommitPerMessage(s: State)
    requires Reachable(s)
    ensures s.status.commits <= 1 && s.response.commits <= 1
  {
    ReachableInv(s);
  }

  /** A driver-status handler returns an error only when the repository failed it. */
  lemma NoNackWithoutFailure(s: State, a: Action, s': State)
    requires Reachable(s) && Next(s, a) == Some(s')
    requires (a.StatusTake? && a.ok) || (a.StatusCommit? && a.ok) || (a.StatusReread? && a.ok) || a.StatusPublish?
    ensures s'.status.pc.StatusIdle? ==> s'.status.queue == s.status.queue[1..]
  {
    hide StatusNext, CreateNext, TimerNext, CancelNext, ResponseNext, DriverNext;
    hide CallsInv, ResponseOk, MessagesInv, TimersInv, OrderInv, DbInv, StatusOk, FareOk;
    ReachableInv(s);
    if a.StatusTake? { TakeNeverNacks(s, a, s'); } else { LaterNeverNacks(s, a, s'); }
  }

  lemma TakeNeverNacks(s: State, a: Action, s': State)
    requires DbInv(s.db) && a.StatusTake? && a.ok && StatusNext(s, a) == Some(s')
    ensures s'.status.pc.StatusIdle? ==> s'.status.queue == s.status.queue[1..]
  {
    hide FinalFare, RowFacts, WellFormedLog, Replay;
    var m := s.status.queue[0];
    if m.rideId in s.db.rides {
      var ride := s.db.rides[m.rideId];
      assert RowOk(ride, s.db.log[m.rideId]);
      if ride.status == InProgress { FinalFareOfRideInProgress(ride, a.now); }
    }
  }

  lemma LaterNeverNacks(s: State, a: Action, s': State)
    requires (a.StatusCommit? && a.ok) || (a.StatusReread? && a.ok) || a.StatusPublish?
    requires StatusOk(s.db, s.status) && StatusNext(s, a) == Some(s')
    ensures s'.status.pc.StatusIdle? ==> s'.status.queue == s.status.queue[1..]
  {
  }

  // ----- forward-only lifecycle

  /** The statuses of the log strictly climb the lifecycle. */
  ghost predicate Climbs(events: seq<Event>) {
    forall i :: 0 < i < |events| ==> Rank(StatusAfter(events[i - 1])) < Rank(StatusAfter(events[i]))
  }

  ghost predicate NoChangeAfterCancel(events: seq<Event>) {
    forall i :: 0 <= i < |events| && events[i].StatusChanged? ==> events[i].oldStatus != Cancelled
  }

  lemma OrderedLogClimbs(events: seq<Event>, fare: real)
    requires WellFormedLog(events, fare) && NoChangeAfterCancel(events) && TargetsOrdered(events)
    ensures Climbs(events)
  {
    forall i | 0 < i < |events| ensures Rank(StatusAfter(events[i - 1])) < Rank(StatusAfter(events[i])) {
      assert Linked(events, i) && Linked(events, i - 1) && LegalEvent(events[i], fare);
      if i > 1 { assert LegalEvent(events[i - 1], fare); }
    }
  }

  lemma {:induction false} ClimbsTransitively(events: seq<Event>, i: nat, j: nat)
    requires Climbs(events) && i <= j < |events|
    ensures Rank(StatusAfter(events[i])) + (j - i) <= Rank(StatusAfter(events[j]))
    decreases j
  {
    if i < j { ClimbsTransitively(events, i, j - 1); }
  }

  lemma ClimbIsOrdered(events: seq<Event>, fare: real)
    requires WellFormedLog(events, fare) && Climbs(events)
    ensures TargetsOrdered(events) && NoChangeAfterCancel(events)
  {
    forall i, j | 0 <= i < j < |events| ensures Rank(StatusAfter(events[i])) <= Rank(StatusAfter(events[j])) {
      ClimbsTransitively(events, i, j);
    }
    forall i | 0 <= i < |events| && events[i].StatusChanged? ensures events[i].oldStatus != Cancelled {
      assert Linked(events, i);
    }
  }

  /**
   Exactly when a ride's history is a climb: reports took effect in lifecycle order and none took effect after a
   cancellation.
   */
  lemma ForwardOnlyExactly(s: State, id: string)
    requires Reachable(s) && id in s.db.rides
    ensures var events := EventsOf(s.db, id); Climbs(events) <==> TargetsOrdered(events) && NoChangeAfterCancel(events)
  {
    hide TargetsOrdered, NoChangeAfterCancel, Climbs, WellFormedLog, CallsInv, StatusOk, FareOk, ResponseOk;
    hide MessagesInv, TimersInv, OrderInv;
    ReachableInv(s);
    var events, fare := s.db.log[id], s.db.rides[id].estimatedFare;
    assert RowOk(s.db.rides[id], events);
    if Climbs(events) {
      ClimbIsOrdered(events, fare);
    } else if TargetsOrdered(events) && NoChangeAfterCancel(events) {
      OrderedLogClimbs(events, fare);
    }
  }

  /**
   Messages handled in lifecycle order, none taking effect after a cancellation: strictly forward, at most six
   entries.
   */
  lemma ForwardOnly(s: State, id: string)
    requires Reachable(s) && id in s.db.rides
    requires Orderly(HandledOf(s, id)) && NoChangeAfterCancel(EventsOf(s.db, id))
    ensures Climbs(EventsOf(s.db, id)) && |EventsOf(s.db, id)| <= 6
  {
    hide CallsInv, StatusOk, FareOk, ResponseOk, MessagesInv, TimersInv, RowFacts, Replay;
    ReachableInv(s);
    var events := s.db.log[id];
    assert RowOk(s.db.rides[id], events) && OrderOk(HandledOf(s, id), EventsOf(s.db, id));
    OrderedLogClimbs(events, s.db.rides[id].estimatedFare);
    ClimbsTransitively(events, 0, |events| - 1);
  }
}
