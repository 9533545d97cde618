/**
 The driver-status consumer can always go on: whatever it is doing, it can finish the message at the head of its queue
 and then every other, if the repository does not fail it (internal/ride/service.go,
 internal/shared/messaging/consumer.go).
 */
module LifecycleProgress {
  import opened Prelude
  import opened RideStore
  import opened RideInvariant
  import opened Lifecycle
  import opened LifecycleInvariant
  import opened LifecycleSteps
  import opened LifecycleRuns

  /** No ride gains or loses its driver. */
  ghost predicate SameDrivers(before: Db, after: Db) {
    forall id <- before.rides :: id in after.rides && after.rides[id].driverId == before.rides[id].driverId
  }

  /** The row is where this message wants it, or was never meant by it. */
  ghost predicate Done(db: Db, m: DriverStatusMessage) {
    m.rideId != "" && m.rideId in db.rides ==> Decide(m.status, db.rides[m.rideId].status) == None
  }

  /** A run of the consumer alone that acknowledges the head. */
  ghost predicate Finishes(s: State, actions: seq<Action>) {
    && s.status.queue != []
    && Run(s, actions).Some? && (forall a <- actions :: StatusAction(a))
    && var t := Run(s, actions).value;
       && t.status.queue == s.status.queue[1..]
       && SameDrivers(s.db, t.db) && Done(t.db, s.status.queue[0])
  }

  lemma PublishFinishes(s: State)
    requires s.status.queue != [] && s.status.pc.AtStatusPublish? && StatusOk(s.db, s.status)
    ensures Finishes(s, [StatusPublish(false)])
  {
    OneStep(s, StatusPublish(false), StatusNext(s, StatusPublish(false)).value);
  }

  lemma RereadFinishes(s: State)
    requires s.status.queue != [] && s.status.pc.AtStatusReread? && StatusOk(s.db, s.status)
    ensures Finishes(s, [StatusReread(true), StatusPublish(false)])
  {
    FinishStatus(s, false);
  }

  lemma FinishesAfter(s: State, first: seq<Action>, s1: State, rest: seq<Action>)
    requires Run(s, first) == Some(s1) && Finishes(s1, rest) && forall a <- first :: StatusAction(a)
    requires s1.status.queue == s.status.queue && SameDrivers(s.db, s1.db)
    ensures Finishes(s, first + rest)
  {
    hide Run, Done;
    RunAppend(s, first, rest);
  }

  lemma WriteFinishes(s: State) returns (actions: seq<Action>)
    requires Inv(s) && s.status.queue != [] && s.status.pc.AtStatusWrite?
    ensures Finishes(s, actions)
  {
    hide Finishes, DbInv, CallsInv, FareOk, ResponseOk, TimersInv, OrderInv, StatusTx, Agrees, StatusDone, Run;
    assert Agrees(s.db, s.status.queue[0]);
    StatusCommitKeepsDb(s, 0);
    WriteKeepsDrivers(s, 0);
    StatusWritten(s, true, 0);
    var s1 := Run(s, [StatusCommit(true, 0)]).value;
    RereadFinishes(s1);
    FinishesAfter(s, [StatusCommit(true, 0)], s1, [StatusReread(true), StatusPublish(false)]);
    actions := [StatusCommit(true, 0)] + [StatusReread(true), StatusPublish(false)];
  }

  lemma WriteKeepsDrivers(s: State, now: int)
    requires s.status.queue != [] && s.status.pc.AtStatusWrite?
    ensures var m, pc := s.status.queue[0], s.status.pc;
            var tx := StatusTx(s.db, m.rideId, pc.newStatus, m.driverId, pc.fare, now);
            tx.Ok? ==> SameDrivers(s.db, tx.value)
  {
  }

  lemma IdleFinishes(s: State) returns (actions: seq<Action>)
    requires Inv(s) && s.status.queue != [] && s.status.pc.StatusIdle?
    ensures Finishes(s, actions)
  {
    hide DbInv, CallsInv, StatusOk, FareOk, ResponseOk, TimersInv, OrderInv, MessagesInv, Run, FinalFare, Decide;
    var m := s.status.queue[0];
    var s1 := StatusTaken(s, true, 0);
    actions := [StatusTake(true, 0)];
    if !Ignored(s.db, m) {
      CompletionIsPriced(s, m);
      RunKeepsInv(s, actions);
      var rest := WriteFinishes(s1);
      FinishesAfter(s, actions, s1, rest);
      actions := actions + rest;
    }
  }

  lemma CompletionIsPriced(s: State, m: DriverStatusMessage)
    requires DbInv(s.db) && m.rideId in s.db.rides
    ensures Decide(m.status, s.db.rides[m.rideId].status) == Some(Completed) ==> FinalFare(s.db.rides[m.rideId], 0).Ok?
  {
    hide FinalFare;
    assert RowOk(s.db.rides[m.rideId], s.db.log[m.rideId]);
    if s.db.rides[m.rideId].status == InProgress { FinalFareOfRideInProgress(s.db.rides[m.rideId], 0); }
  }

  /** The message at the head can always be finished, and then nothing is left to do for it. */
  lemma HeadFinishes(s: State) returns (actions: seq<Action>)
    requires Inv(s) && s.status.queue != []
    ensures Finishes(s, actions)
  {
    hide DbInv, CallsInv, StatusOk, FareOk, ResponseOk, TimersInv, OrderInv, MessagesInv, Finishes, Run;
    match s.status.pc
    case StatusIdle => actions := IdleFinishes(s);
    case AtStatusWrite(_, _, _) => actions := WriteFinishes(s);
    case AtStatusReread =>
      RereadFinishes(s);
      actions := [StatusReread(true), StatusPublish(false)];
    case AtStatusPublish(_) =>
      PublishFinishes(s);
      actions := [StatusPublish(false)];
  }

  /** So can the one at any position, by the consumer alone. */
  lemma {:induction false} QueuedFinishes(s: State, k: nat) returns (actions: seq<Action>)
    requires Inv(s) && k < |s.status.queue|
    ensures Run(s, actions).Some? && forall a <- actions :: StatusAction(a)
    ensures SameDrivers(s.db, Run(s, actions).value.db) && Done(Run(s, actions).value.db, s.status.queue[k])
    decreases k
  {
    hide Inv, Run, Done;
    actions := HeadFinishes(s);
    if k > 0 {
      var s1 := Run(s, actions).value;
      RunKeepsInv(s, actions);
      var rest := QueuedFinishes(s1, k - 1);
      RunAppend(s, actions, rest);
      actions := actions + rest;
    }
  }
}
