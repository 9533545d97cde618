/**
 The inductive invariant of the lifecycle machine, actor by actor.

 Every assertion about an actor's local state is stable under `DbEvolves` (or, for the driver-status consumer between
 its read and its write, under `OthersEvolve`); each action then needs a proof only for the actor that moves.
 */
module LifecycleInvariant {
  import opened Prelude
  import opened RideStore
  import opened RideInvariant
  import opened Lifecycle

  // ----- assertions about one actor

  /** A row read earlier is an earlier version of the row. */
  ghost predicate Snapshot(db: Db, id: string, ride: Ride) {
    id in db.rides && Evolves(ride, db.rides[id])
  }

  ghost predicate LeftRequested(db: Db, id: string) {
    id in db.rides && db.rides[id].status != Requested
  }

  ghost predicate DriverIs(db: Db, id: string, driverId: string) {
    id in db.rides && db.rides[id].driverId == Some(driverId)
  }

  ghost predicate SeenEarlier(seen: Status, current: Status) {
    (current == Requested ==> seen == Requested) && (current == Matched ==> seen == Requested || seen == Matched)
  }

  ghost predicate CallOk(db: Db, call: CallId, pc: CallPc) {
    && (call.TimerCall? ==> call.rideId == pc.rideId && pc.rideId in db.rides)
    && match pc
       case AtCallbackGet(id) => call.TimerCall?
       case AtCancelGet(_, passengerId, _) => call.TimerCall? ==> passengerId == ""
       case AtCancelWrite(id, seen, refund, _) =>
         && id in db.rides && refund == CalculateRefund(seen, db.rides[id].estimatedFare)
         && SeenEarlier(seen, db.rides[id].status)
       case AtCancelReread(id) => LeftRequested(db, id)
       case AtCancelClear(id, ride) => LeftRequested(db, id) && Snapshot(db, id, ride)
       case AtCancelPublish(id, ride) => LeftRequested(db, id) && Snapshot(db, id, ride)
  }

  /** What each report means for the ride it names. */
  predicate MeansStatus(reported: DriverStatus, status: Status) {
    || (reported == EN_ROUTE && status == EnRoute)
    || (reported == ARRIVED && status == Arrived)
    || (reported == BUSY && status == InProgress)
    || (reported == AVAILABLE && status == Completed)
  }

  /** Nothing is left to do for this message: handling it again changes no row. */
  ghost predicate StatusDone(db: Db, m: DriverStatusMessage) {
    && m.rideId != "" && m.rideId in db.rides
    && Settled(db.rides[m.rideId].status) && Decide(m.status, db.rides[m.rideId].status) == None
    && MeansStatus(m.status, db.rides[m.rideId].status)
  }

  ghost predicate StatusOk(db: Db, c: StatusConsumer) {
    && (!c.pc.StatusIdle? ==> c.queue != [])
    && match c.pc
       case StatusIdle => c.commits <= 1 && (c.commits == 1 ==> c.queue != [] && StatusDone(db, c.queue[0]))
       case AtStatusWrite(newStatus, fare, readAt) =>
         var m := c.queue[0];
         && c.commits == 0 && m.rideId != "" && m.rideId in db.rides
         && Decide(m.status, db.rides[m.rideId].status) == Some(newStatus)
         && (newStatus == Completed <==> fare.Some?)
       case AtStatusReread => c.commits == 1 && StatusDone(db, c.queue[0])
       case AtStatusPublish(ride) =>
         && c.commits == 1 && StatusDone(db, c.queue[0]) && Snapshot(db, c.queue[0].rideId, ride)
         && MeansStatus(c.queue[0].status, ride.status)
  }

  /** The fare about to be written is the fare of the row as it still is. */
  ghost predicate FareOk(db: Db, c: StatusConsumer) {
    c.pc.AtStatusWrite? && c.pc.fare.Some? && c.queue != [] && c.queue[0].rideId in db.rides ==>
      FinalFare(db.rides[c.queue[0].rideId], c.pc.readAt) == Ok(c.pc.fare.value)
  }

  ghost predicate ResponseOk(db: Db, c: ResponseConsumer) {
    && c.commits <= 1
    && (!c.pc.ResponseIdle? ==> c.commits == 1)
    && (c.commits == 1 ==> c.queue != [] && !IgnoredResponse(c.queue[0]) && LeftRequested(db, c.queue[0].rideId))
    && (c.commits == 1 ==> DriverIs(db, c.queue[0].rideId, c.queue[0].driverId))
    && match c.pc
       case AtResponseClear(ride) =>
         Snapshot(db, c.queue[0].rideId, ride) && ride.driverId == Some(c.queue[0].driverId)
       case AtResponsePublish(ride) =>
         Snapshot(db, c.queue[0].rideId, ride) && ride.driverId == Some(c.queue[0].driverId)
       case _ => true
  }

  /** An EN_ROUTE or ARRIVED message names the driver the row holds. */
  ghost predicate Agrees(db: Db, m: DriverStatusMessage) {
    m.status == EN_ROUTE || m.status == ARRIVED ==> DriverIs(db, m.rideId, m.driverId)
  }

  ghost predicate NamesDriver(db: Db, m: RideStatusMessage) {
    m.driverId != "" ==> DriverIs(db, m.rideId, m.driverId)
  }

  ghost predicate BeforeWrite(pc: CallPc) {
    pc.AtCallbackGet? || pc.AtCancelGet? || pc.AtCancelWrite?
  }

  ghost predicate CallbackRunning(s: State, id: string) {
    TimerCall(id) in s.calls && BeforeWrite(s.calls[TimerCall(id)])
  }

  /** Somebody is still going to resolve this request, or the database failed the one who was. */
  ghost predicate Watched(s: State, id: string) {
    (id in s.timers && s.timers[id]) || CallbackRunning(s, id) || id in s.history.abandoned
  }

  ghost predicate TimerOk(s: State, id: string) {
    && (id in s.creating ==>
          id in s.db.rides && id !in s.history.created && id !in s.timers && TimerCall(id) !in s.calls)
    && (id in s.timers ==> id in s.history.created && (s.timers[id] ==> TimerCall(id) !in s.calls))
    && (TimerCall(id) in s.calls ==> id in s.history.created)
    && (id in s.history.created ==> id in s.db.rides && (s.db.rides[id].status == Requested ==> Watched(s, id)))
  }

  // ----- the order of driver-status messages

  function Rank(status: Status): nat {
    match status
    case Requested => 0
    case Matched => 1
    case EnRoute => 2
    case Arrived => 3
    case InProgress => 4
    case Completed => 5
    case Cancelled => 5
  }

  function MessageRank(status: DriverStatus): nat {
    match status
    case OFFLINE => 0
    case EN_ROUTE => 2
    case ARRIVED => 3
    case BUSY => 4
    case AVAILABLE => 5
  }

  /** EN_ROUTE, ARRIVED, BUSY, AVAILABLE, with any repeats and gaps; OFFLINE does not matter. */
  ghost predicate Orderly(handled: seq<DriverStatus>) {
    forall i, j :: 0 <= i < j < |handled| && handled[i] != OFFLINE && handled[j] != OFFLINE ==>
                     MessageRank(handled[i]) <= MessageRank(handled[j])
  }

  ghost predicate TargetsOrdered(events: seq<Event>) {
    forall i, j :: 0 <= i < j < |events| && events[i].StatusChanged? && events[j].StatusChanged? ==>
                     Rank(events[i].newStatus) <= Rank(events[j].newStatus)
  }

  ghost predicate Reported(handled: seq<DriverStatus>, status: Status) {
    exists j :: 0 <= j < |handled| && MessageRank(handled[j]) == Rank(status)
  }

  ghost predicate OrderOk(handled: seq<DriverStatus>, events: seq<Event>) {
    && (forall i :: 0 <= i < |events| && events[i].StatusChanged? ==>
          Rank(events[i].newStatus) >= 2 && Reported(handled, events[i].newStatus))
    && (Orderly(handled) ==> TargetsOrdered(events))
  }

  ghost predicate HeadHandled(s: State) {
    s.status.pc.AtStatusWrite? && s.status.queue != [] ==>
      var h := HandledOf(s, s.status.queue[0].rideId);
      h != [] && h[|h| - 1] == s.status.queue[0].status
  }

  // ----- the invariant

  ghost predicate CallsInv(s: State) { forall k <- s.calls :: CallOk(s.db, k, s.calls[k]) }

  ghost predicate MessagesInv(s: State) {
    && (forall m <- s.status.queue :: Agrees(s.db, m))
    && (forall m <- s.rideStatus :: NamesDriver(s.db, m))
    && (forall n <- s.arrivals :: DriverIs(s.db, s.arrivals[n].1, s.arrivals[n].0))
  }

  ghost predicate TimersInv(s: State) { forall id :: TimerOk(s, id) }

  ghost predicate OrderInv(s: State) {
    HeadHandled(s) && forall id <- s.db.rides :: OrderOk(HandledOf(s, id), EventsOf(s.db, id))
  }

  ghost predicate Inv(s: State) {
    && DbInv(s.db) && CallsInv(s) && StatusOk(s.db, s.status) && FareOk(s.db, s.status) && ResponseOk(s.db, s.response)
    && MessagesInv(s) && TimersInv(s) && OrderInv(s)
  }

  // ----- parts an action does not touch

  lemma CallsStable(s: State, db: Db)
    requires CallsInv(s) && DbEvolves(s.db, db)
    ensures CallsInv(s.(db := db))
  {
    forall k | k in s.calls ensures CallOk(db, k, s.calls[k]) { assert CallOk(s.db, k, s.calls[k]); }
  }

  /**
   Between its read and its write the consumer's decision stays right: nobody else moves a ride to where it is going.
   */
  lemma StatusStable(before: Db, after: Db, c: StatusConsumer)
    requires OthersEvolve(before, after) && StatusOk(before, c)
    ensures StatusOk(after, c)
  {
    if c.queue != [] && c.queue[0].rideId in before.rides {
      var id := c.queue[0].rideId;
      assert EvolvesUnattended(before.rides[id], after.rides[id]);
    }
  }

  lemma FareStable(before: Db, after: Db, c: StatusConsumer)
    requires OthersEvolve(before, after) && StatusOk(before, c) && FareOk(before, c)
    ensures FareOk(after, c)
  {
    if c.pc.AtStatusWrite? {
      var id := c.queue[0].rideId;
      assert EvolvesUnattended(before.rides[id], after.rides[id]);
    }
  }

  lemma ResponseStable(before: Db, after: Db, c: ResponseConsumer)
    requires DbEvolves(before, after) && ResponseOk(before, c)
    ensures ResponseOk(after, c)
  {
  }

  lemma MessagesStable(s: State, db: Db)
    requires MessagesInv(s) && DbEvolves(s.db, db)
    ensures MessagesInv(s.(db := db))
  {
    forall m | m in s.status.queue ensures Agrees(db, m) { assert Agrees(s.db, m); }
    forall m | m in s.rideStatus ensures NamesDriver(db, m) { assert NamesDriver(s.db, m); }
  }

  lemma TimersStable(s: State, db: Db)
    requires TimersInv(s) && DbEvolves(s.db, db)
    ensures TimersInv(s.(db := db))
  {
    var s' := s.(db := db);
    forall id ensures TimerOk(s', id) { assert TimerOk(s, id); }
  }

  /** A match, a cancellation or a creation does not change the order of reported statuses. */
  lemma OrderStable(s: State, id: string, ride: Ride, e: Event)
    requires OrderInv(s) && !e.StatusChanged? && s.db.rides.Keys == s.db.log.Keys
    ensures OrderInv(s.(db := Commit(s.db, id, ride, e)))
  {
    var s' := s.(db := Commit(s.db, id, ride, e));
    forall other | other in s'.db.rides ensures OrderOk(HandledOf(s', other), EventsOf(s'.db, other)) {
      if other in s.db.rides { assert OrderOk(HandledOf(s, other), EventsOf(s.db, other)); }
    }
  }

  /** All parts together, for a transaction that is not the status consumer's. */
  lemma OthersCommit(s: State, id: string, ride: Ride, e: Event)
    requires Inv(s) && !e.StatusChanged?
    requires DbInv(Commit(s.db, id, ride, e)) && OthersEvolve(s.db, Commit(s.db, id, ride, e))
    ensures Inv(s.(db := Commit(s.db, id, ride, e)))
  {
    var db := Commit(s.db, id, ride, e);
    CallsStable(s, db);
    StatusStable(s.db, db, s.status);
    FareStable(s.db, db, s.status);
    ResponseStable(s.db, db, s.response);
    MessagesStable(s, db);
    TimersStable(s, db);
    OrderStable(s, id, ride, e);
  }
}
