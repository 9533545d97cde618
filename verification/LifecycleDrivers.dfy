/**
 When a ride in progress has a driver. HandleStart publishes BUSY for any ride id (internal/driverlocation/handler.go),
 unlike HandleWSStatusUpdate, which looks the assigned ride up first; so it depends on the BUSY messages.
 */
module LifecycleDrivers {
  import opened Prelude
  import opened RideStore
  import opened RideInvariant
  import opened Lifecycle
  import opened LifecycleInvariant
  import opened LifecycleSteps
  import opened LifecycleTheorems
  import opened LifecycleProgress
  import opened LifecycleFinality
  import opened LifecycleRuns

  predicate HasDriver(db: Db, id: string) {
    id in db.rides && db.rides[id].driverId.Some?
  }

  predicate Started(status: Status) {
    status == InProgress || status == Completed
  }

  /** A started ride was started for a driver. */
  predicate Attended(db: Db, id: string) {
    id in db.rides && Started(db.rides[id].status) ==> HasDriver(db, id)
  }

  /** A committed BUSY write leaves the ride without a driver if and only if the row it writes has none. */
  lemma StartedWithoutDriverExactly(s: State, now: int, s': State)
    requires Reachable(s) && Next(s, StatusCommit(true, now)) == Some(s') && s.status.pc.newStatus == InProgress
    ensures var id := s.status.queue[0].rideId;
            && id in s.db.rides && id in s'.db.rides && s'.db.rides[id].status == InProgress
            && (s'.db.rides[id].driverId.None? <==> s.db.rides[id].driverId.None?)
            && (Attended(s'.db, id) <==> HasDriver(s.db, id))
  {
    hide DbInv, CallsInv, FareOk, ResponseOk, MessagesInv, TimersInv, OrderInv;
    ReachableInv(s);
  }

  /** Once REQUESTED is left, a ride has the driver it has, or none, for ever: no match can follow. */
  lemma DriverFixedAfterRequest(s: State, id: string, actions: seq<Action>, later: State)
    requires Reachable(s) && id in s.db.rides && s.db.rides[id].status != Requested && Run(s, actions) == Some(later)
    ensures id in later.db.rides && later.db.rides[id].driverId == s.db.rides[id].driverId
  {
    hide CallsInv, StatusOk, FareOk, ResponseOk, MessagesInv, TimersInv, OrderInv, RowFacts, Replay, Run, DbEvolves;
    ReachableInv(s);
    RunEvolves(s, actions, later);
    assert RowOk(s.db.rides[id], s.db.log[id]) && id in later.db.rides by { DriverWrittenOnce(s, id, actions, later); }
    var events, fare := s.db.log[id], s.db.rides[id].estimatedFare;
    LastStatus(s.db.rides[id], events);
    EarlyStatuses(events, fare, |events| - 1);
    SecondEntryDecides(s.db, id);
    SecondEntryDecides(later.db, id);
  }

  lemma SecondEntryDecides(db: Db, id: string)
    requires DbInv(db) && id in db.rides
    ensures var events := db.log[id];
            db.rides[id].driverId == if |events| > 1 && events[1].DriverMatched? then Some(events[1].driverId) else None
  {
    assert RowOk(db.rides[id], db.log[id]);
    ReplayedDriver(db.log[id], db.rides[id].estimatedFare);
  }

  // ----- the missing check

  /**
   A BUSY message is published only for a ride that has a driver, which is what looking the ride up first would
   ensure.
   */
  predicate Checked(s: State, a: Action) {
    a.DriverPublish? && a.message.status == BUSY ==> HasDriver(s.db, a.message.rideId)
  }

  ghost predicate AllChecked(s: State, actions: seq<Action>)
    decreases |actions|
  {
    actions == [] || Next(s, actions[0]).None? ||
    (Checked(s, actions[0]) && AllChecked(Next(s, actions[0]).value, actions[1..]))
  }

  ghost predicate BusyHasDriver(s: State) {
    forall m <- s.status.queue :: m.status == BUSY ==> HasDriver(s.db, m.rideId)
  }

  ghost predicate AllAttended(db: Db) {
    forall id <- db.rides :: Attended(db, id)
  }

  lemma CheckedKeepsQueue(s: State, a: Action, s': State)
    requires Inv(s) && Next(s, a) == Some(s') && BusyHasDriver(s) && Checked(s, a)
    ensures BusyHasDriver(s')
  {
    hide DbInv, CallsInv, StatusOk, FareOk, ResponseOk, MessagesInv, TimersInv, OrderInv, Next;
    NextEvolves(s, a, s');
    QueueFrame(s, a, s');
    BusyComesFromPublish(s, a, s');
    forall m | m in s'.status.queue && m.status == BUSY ensures HasDriver(s'.db, m.rideId) {
      assert HasDriver(s.db, m.rideId);
    }
  }

  /** EN_ROUTE and ARRIVED are what the other publishers send. */
  lemma BusyComesFromPublish(s: State, a: Action, s': State)
    requires StatusOk(s.db, s.status) && Next(s, a) == Some(s')
    ensures forall m <- s'.status.queue :: m in s.status.queue || m.status != BUSY || a == DriverPublish(m)
  {
    hide StatusDone, Decide, FinalFare, MatchTx, CancelTx, StatusTx, CalculateRefund;
    hide CreateNext, TimerNext, CancelNext, ResponseNext, StatusNext, DriverNext;
    if a.StatusTake? || a.StatusCommit? || a.StatusReread? || a.StatusPublish? { ConsumerFrame(s, a, s'); }
    else if a.DriverPublish? || a.DetailsTake? || a.ArrivedRead? || a.ArrivedPublish? { DriverSends(s, a, s'); }
    else { ServiceLeavesQueue(s, a, s'); }
  }

  lemma DriverSends(s: State, a: Action, s': State)
    requires a.DriverPublish? || a.DetailsTake? || a.ArrivedRead? || a.ArrivedPublish?
    requires DriverNext(s, a) == Some(s')
    ensures forall m <- s'.status.queue :: m in s.status.queue || m.status != BUSY || a == DriverPublish(m)
  {
  }

  lemma CheckedKeepsAttended(s: State, a: Action, s': State)
    requires Inv(s) && Next(s, a) == Some(s') && BusyHasDriver(s) && AllAttended(s.db)
    ensures AllAttended(s'.db)
  {
    hide DbInv, CallsInv, StatusOk, FareOk, ResponseOk, MessagesInv, TimersInv, OrderInv, StatusNext;
    NextEvolves(s, a, s');
    forall id | id in s'.db.rides ensures Attended(s'.db, id) {
      if a.StatusCommit? { WriteKeepsAttended(s, a, s', id); }
      else if id !in s.db.rides { NewRideIsRequested(s, a, s', id); }
      else { assert Attended(s.db, id); }
    }
  }

  lemma WriteKeepsAttended(s: State, a: Action, s': State, id: string)
    requires StatusOk(s.db, s.status) && a.StatusCommit? && StatusNext(s, a) == Some(s') && id in s'.db.rides
    requires BusyHasDriver(s) && AllAttended(s.db)
    ensures Attended(s'.db, id)
  {
    hide StatusOk, StatusNext, BusyHasDriver;
    if !a.ok {
      FailedWriteMovesNothing(s, a, s');
    } else if WritesStatus(s, a, id) {
      OwnWriteKeepsAttended(s, a, s', id);
    } else {
      OtherWriteMovesNothing(s, a, s', id);
      assert Attended(s.db, id);
    }
  }

  lemma OwnWriteKeepsAttended(s: State, a: Action, s': State, id: string)
    requires StatusOk(s.db, s.status) && WritesStatus(s, a, id) && StatusNext(s, a) == Some(s')
    requires BusyHasDriver(s) && AllAttended(s.db)
    ensures Attended(s'.db, id)
  {
    hide StatusDone;
    assert s.status.queue[0] in s.status.queue;
    assert Attended(s.db, id);
  }

  lemma NewRideIsRequested(s: State, a: Action, s': State, id: string)
    requires Inv(s) && Next(s, a) == Some(s') && id in s'.db.rides && id !in s.db.rides && !a.StatusCommit?
    ensures s'.db.rides[id].status == Requested
  {
    hide DbInv, CallsInv, StatusOk, FareOk, ResponseOk, MessagesInv, TimersInv, OrderInv;
    hide TimerNext, DriverNext, CancelNext, ResponseNext, StatusNext;
    NextQuiet(s, a, s');
    if a.CancelCommit? { CancelAddsNoRide(s, a, s'); }
    if a.ResponseTake? { MatchAddsNoRide(s, a, s'); }
  }

  lemma CancelAddsNoRide(s: State, a: Action, s': State)
    requires a.CancelCommit? && CancelNext(s, a) == Some(s')
    ensures s'.db.rides.Keys == s.db.rides.Keys
  {
  }

  lemma MatchAddsNoRide(s: State, a: Action, s': State)
    requires a.ResponseTake? && ResponseNext(s, a) == Some(s')
    ensures s'.db.rides.Keys == s.db.rides.Keys
  {
  }

  lemma {:induction false} CheckedRunIsAttended(s: State, actions: seq<Action>)
    requires Inv(s) && Run(s, actions).Some? && AllChecked(s, actions) && BusyHasDriver(s) && AllAttended(s.db)
    ensures BusyHasDriver(Run(s, actions).value) && AllAttended(Run(s, actions).value.db)
    decreases |actions|
  {
    hide Next, Inv, BusyHasDriver, AllAttended;
    if actions != [] {
      var s' := Next(s, actions[0]).value;
      NextKeepsInv(s, actions[0], s');
      CheckedKeepsQueue(s, actions[0], s');
      CheckedKeepsAttended(s, actions[0], s');
      CheckedRunIsAttended(s', actions[1..]);
    }
  }

  /** With the check, every ride ever IN_PROGRESS or COMPLETED has a driver. */
  lemma CheckedStartsAreAttended(actions: seq<Action>, id: string)
    requires Run(Init(), actions).Some? && AllChecked(Init(), actions)
    ensures Attended(Run(Init(), actions).value.db, id)
  {
    hide Run, Next, AllChecked;
    InitInv();
    CheckedRunIsAttended(Init(), actions);
  }

  /** Without it, a BUSY message for a ride without a driver, wherever it waits, can be carried through. */
  lemma UncheckedBusyStarts(s: State, id: string, k: nat) returns (actions: seq<Action>)
    requires Inv(s) && id != "" && id in s.db.rides && s.db.rides[id].driverId.None?
    requires k < |s.status.queue| && s.status.queue[k].status == BUSY && s.status.queue[k].rideId == id
    ensures Run(s, actions).Some? && AllChecked(s, actions)
    ensures var t := Run(s, actions).value;
            id in t.db.rides && t.db.rides[id].status == InProgress && t.db.rides[id].driverId.None?
  {
    hide Inv, Run, AllChecked, StatusAction;
    actions := QueuedFinishes(s, k);
    ConsumerIsChecked(s, actions);
  }

  lemma {:induction false} ConsumerIsChecked(s: State, actions: seq<Action>)
    requires Run(s, actions).Some? && forall a <- actions :: StatusAction(a)
    ensures AllChecked(s, actions)
    decreases |actions|
  {
    hide Next;
    if actions != [] {
      assert StatusAction(actions[0]);
      ConsumerIsChecked(Next(s, actions[0]).value, actions[1..]);
    }
  }

  /**
   So the check is exactly what is missing: in a system that has made it so far, publishing BUSY for a ride is safe,
   whatever checked actions follow, if and only if the ride has a driver.
   */
  lemma CheckIsNeededExactly(before: seq<Action>, driverId: string, id: string, s: State, s': State)
    requires Run(Init(), before) == Some(s) && AllChecked(Init(), before) && id != "" && id in s.db.rides
    requires Next(s, DriverPublish(DriverStatusMessage(driverId, BUSY, id))) == Some(s')
    ensures HasDriver(s.db, id) <==>
              forall actions: seq<Action> ::
                Run(s', actions).Some? && AllChecked(s', actions) ==> Attended(Run(s', actions).value.db, id)
  {
    hide Run, AllChecked, Inv, BusyHasDriver, AllAttended, CreateNext, TimerNext, CancelNext, ResponseNext, StatusNext;
    var publish, m := DriverPublish(DriverStatusMessage(driverId, BUSY, id)), DriverStatusMessage(driverId, BUSY, id);
    assert Inv(s) && BusyHasDriver(s) && AllAttended(s.db) by {
      StartIsAttended();
      InitInv();
      CheckedRunIsAttended(Init(), before);
      RunKeepsInv(Init(), before);
    }
    NextKeepsInv(s, publish, s');
    assert s'.db == s.db && s'.status.queue == s.status.queue + [m];
    if HasDriver(s.db, id) {
      CheckedKeepsQueue(s, publish, s');
      forall actions: seq<Action> | Run(s', actions).Some? && AllChecked(s', actions)
        ensures Attended(Run(s', actions).value.db, id)
      {
        CheckedRunIsAttended(s', actions);
        AttendedEach(Run(s', actions).value.db, id);
      }
    } else {
      var actions := UncheckedBusyStarts(s', id, |s.status.queue|);
      assert !Attended(Run(s', actions).value.db, id);
    }
  }

  lemma StartIsAttended()
    ensures BusyHasDriver(Init()) && AllAttended(Init().db)
  {
  }

  lemma AttendedEach(db: Db, id: string)
    requires AllAttended(db)
    ensures Attended(db, id)
  {
  }
}
