/**
 What becomes of a commit's announcement (internal/ride/service.go): the handler reads the row again and publishes it;
 a failed read or publish loses the announcement, and a redelivered message is acknowledged without making up for it.
 */
module LifecycleAnnouncements {
  import opened Prelude
  import opened RideStore
  import opened RideInvariant
  import opened Lifecycle
  import opened LifecycleInvariant
  import opened LifecycleRuns
  import opened LifecycleFrames
  import opened LifecycleSteps
  import opened LifecycleTheorems

  // ----- announcements under way

  predicate StatusUnderWay(c: StatusConsumer, id: string) {
    (c.pc.AtStatusReread? || c.pc.AtStatusPublish?) && c.queue != [] && c.queue[0].rideId == id
  }

  predicate ResponseUnderWay(c: ResponseConsumer, id: string) {
    !c.pc.ResponseIdle? && c.queue != [] && c.queue[0].rideId == id
  }

  predicate CallUnderWay(calls: map<CallId, CallPc>, k: CallId, id: string) {
    k in calls && AfterCommit(calls[k]) && calls[k].rideId == id
  }

  function CallsUnderWay(calls: map<CallId, CallPc>, id: string): set<CallId> {
    set k | k in calls && CallUnderWay(calls, k, id)
  }

  function One(b: bool): nat {
    if b then 1 else 0
  }

  /** Commits whose handler has still to announce them. */
  function UnderWay(s: State, id: string): nat {
    One(StatusUnderWay(s.status, id)) + One(ResponseUnderWay(s.response, id)) + |CallsUnderWay(s.calls, id)|
  }

  // ----- announcements sent and lost

  predicate Announces(s: State, s': State, id: string) {
    |s'.rideStatus| > |s.rideStatus| && s'.rideStatus[|s'.rideStatus| - 1].rideId == id
  }

  /** A read after the commit, or the publish, fails. */
  predicate Loses(s: State, a: Action, id: string) {
    match a
    case StatusReread(ok) => !ok && StatusUnderWay(s.status, id)
    case StatusPublish(ok) => !ok && StatusUnderWay(s.status, id)
    case ResponseReread(ok) => !ok && ResponseUnderWay(s.response, id)
    case ResponsePublish(ok) => !ok && ResponseUnderWay(s.response, id)
    case CancelReread(k, ok) => !ok && CallUnderWay(s.calls, k, id)
    case CancelPublish(k, ok) => !ok && CallUnderWay(s.calls, k, id)
    case _ => false
  }

  function Sent(s: State, actions: seq<Action>, id: string): nat
    decreases |actions|
  {
    if actions == [] then 0
    else
      match Next(s, actions[0])
      case None => 0
      case Some(s') => One(Announces(s, s', id)) + Sent(s', actions[1..], id)
  }

  function Lost(s: State, actions: seq<Action>, id: string): nat
    decreases |actions|
  {
    if actions == [] then 0
    else
      match Next(s, actions[0])
      case None => 0
      case Some(s') => One(Loses(s, actions[0], id)) + Lost(s', actions[1..], id)
  }

  /** Commits to be announced: all but the ride's first, which the request message stands for. */
  function Commits(db: Db, id: string): int {
    |EventsOf(db, id)| - One(id in db.rides)
  }

  /** Commits whose announcement has been sent or lost. */
  function Over(s: State, id: string): int {
    Commits(s.db, id) - UnderWay(s, id)
  }

  // ----- one action

  lemma SplitCount(calls: map<CallId, CallPc>, k: CallId, id: string)
    ensures |CallsUnderWay(calls, id)| == |CallsUnderWay(calls, id) - {k}| + One(CallUnderWay(calls, k, id))
  {
    hide AfterCommit;
    if k in CallsUnderWay(calls, id) { assert CallsUnderWay(calls, id) == CallsUnderWay(calls, id) - {k} + {k}; }
    else { assert CallsUnderWay(calls, id) == CallsUnderWay(calls, id) - {k}; }
  }

  lemma SameOthers(calls: map<CallId, CallPc>, calls': map<CallId, CallPc>, k: CallId, id: string)
    requires calls' == calls - {k} || (k in calls' && calls' == calls[k := calls'[k]])
    ensures CallsUnderWay(calls', id) - {k} == CallsUnderWay(calls, id) - {k}
  {
    hide AfterCommit;
  }

  /** One call goes on or ends. */
  lemma CallsCount(calls: map<CallId, CallPc>, calls': map<CallId, CallPc>, k: CallId, id: string)
    requires calls' == calls - {k} || (k in calls' && calls' == calls[k := calls'[k]])
    ensures |CallsUnderWay(calls', id)|
         == |CallsUnderWay(calls, id)| - One(CallUnderWay(calls, k, id)) + One(CallUnderWay(calls', k, id))
  {
    hide CallsUnderWay, CallUnderWay;
    SplitCount(calls, k, id);
    SplitCount(calls', k, id);
    SameOthers(calls, calls', k, id);
  }

  lemma CommitCounts(db: Db, id: string, other: string, ride: Ride, e: Event)
    requires other in db.rides
    ensures Commits(Commit(db, other, ride, e), id) == Commits(db, id) + One(id == other)
  {
  }

  ghost predicate Balanced(s: State, a: Action, s': State, id: string) {
    Over(s', id) == Over(s, id) + One(Announces(s, s', id)) + One(Loses(s, a, id))
  }

  lemma CreateBalanced(s: State, a: Action, s': State, id: string)
    requires (a.CreateCommit? || a.CreatePublish? || a.CreateArm?) && CreateNext(s, a) == Some(s')
    requires s.db.rides.Keys == s.db.log.Keys
    ensures Balanced(s, a, s', id)
  {
    hide UnderWay;
    assert UnderWay(s', id) == UnderWay(s, id) by { UnderWayFrame(s, s', id); }
  }

  lemma UnderWayFrame(s: State, s': State, id: string)
    requires s'.status == s.status && s'.response == s.response && s'.calls == s.calls
    ensures UnderWay(s', id) == UnderWay(s, id)
  {
  }

  lemma TimerBalanced(s: State, a: Action, s': State, id: string)
    requires (a.TimerFire? || a.CallbackRead?) && TimerNext(s, a) == Some(s') && TimerOk(s, a.id)
    ensures Balanced(s, a, s', id)
  {
    CallsCount(s.calls, s'.calls, TimerCall(a.id), id);
  }

  lemma CancelBeginBalanced(s: State, a: Action, s': State, id: string)
    requires a.CancelBegin? && Next(s, a) == Some(s')
    ensures Balanced(s, a, s', id)
  {
    CallsCount(s.calls, s'.calls, HttpCall(a.n), id);
  }

  lemma CancelBalanced(s: State, a: Action, s': State, id: string)
    requires CancelStep(a) && CancelNext(s, a) == Some(s') && a.call in s.calls && CallOk(s.db, a.call, s.calls[a.call])
    ensures Balanced(s, a, s', id)
  {
    hide CancelNext, Balanced, CallOk;
    match a
    case CancelRead(_, _) => CancelReadBalanced(s, a, s', id);
    case CancelCommit(_, _, _) => CancelCommitBalanced(s, a, s', id);
    case CancelReread(_, _) => CancelFinishBalanced(s, a, s', id);
    case CancelClear(_) => CancelFinishBalanced(s, a, s', id);
    case CancelPublish(_, _) => CancelPublishBalanced(s, a, s', id);
  }

  lemma CancelReadBalanced(s: State, a: Action, s': State, id: string)
    requires a.CancelRead? && CancelNext(s, a) == Some(s')
    ensures Balanced(s, a, s', id)
  {
    hide CancelNext, CallsUnderWay, Commits;
    CancelTouches(s, a, s');
    CancelReadMoves(s, a, s');
    CallsCount(s.calls, s'.calls, a.call, id);
  }

  lemma CancelReadMoves(s: State, a: Action, s': State)
    requires a.CancelRead? && CancelNext(s, a) == Some(s')
    ensures a.call in s.calls && s.calls[a.call].AtCancelGet? && s'.rideStatus == s.rideStatus
    ensures a.call in s'.calls ==> s'.calls[a.call].AtCancelWrite?
  {
    hide CalculateRefund;
  }

  lemma CancelCommitBalanced(s: State, a: Action, s': State, id: string)
    requires a.CancelCommit? && CancelNext(s, a) == Some(s')
    ensures Balanced(s, a, s', id)
  {
    hide CallsUnderWay, Commits;
    CallsCount(s.calls, s'.calls, a.call, id);
    var pc := s.calls[a.call];
    if s'.db != s.db {
      var ride := s.db.rides[pc.rideId];
      CommitCounts(s.db, id, pc.rideId, s'.db.rides[pc.rideId],
          RideCancelled(ride.status, Cancelled, pc.reason, pc.refund));
    }
  }

  lemma CancelFinishBalanced(s: State, a: Action, s': State, id: string)
    requires (a.CancelReread? || a.CancelClear?) && CancelNext(s, a) == Some(s')
              && CallOk(s.db, a.call, s.calls[a.call])
    ensures Balanced(s, a, s', id)
  {
    hide CallsUnderWay;
    CallsCount(s.calls, s'.calls, a.call, id);
  }

  lemma CancelPublishBalanced(s: State, a: Action, s': State, id: string)
    requires a.CancelPublish? && CancelNext(s, a) == Some(s')
    ensures Balanced(s, a, s', id)
  {
    hide CallsUnderWay;
    CallsCount(s.calls, s'.calls, a.call, id);
  }

  lemma ResponseBalanced(s: State, a: Action, s': State, id: string)
    requires ResponseAction(a) && ResponseNext(s, a) == Some(s') && ResponseOk(s.db, s.response)
    ensures Balanced(s, a, s', id)
  {
    hide ResponseNext, Balanced, ResponseOk;
    match a
    case ResponseTake(_, _) => ResponseTakeBalanced(s, a, s', id);
    case ResponseReread(_) => ResponseRereadBalanced(s, a, s', id);
    case ResponseClear => ResponseRereadBalanced(s, a, s', id);
    case ResponsePublish(_) => ResponsePublishBalanced(s, a, s', id);
  }

  lemma ResponseTakeBalanced(s: State, a: Action, s': State, id: string)
    requires a.ResponseTake? && ResponseNext(s, a) == Some(s')
    ensures Balanced(s, a, s', id)
  {
    hide CallsUnderWay, Commits;
    var m := s.response.queue[0];
    if s'.db != s.db {
      CommitCounts(s.db, id, m.rideId, s'.db.rides[m.rideId],
                   DriverMatched(s.db.rides[m.rideId].status, Matched, m.driverId));
    }
  }

  lemma ResponseRereadBalanced(s: State, a: Action, s': State, id: string)
    requires (a.ResponseReread? || a.ResponseClear?) && ResponseNext(s, a) == Some(s') && ResponseOk(s.db, s.response)
    ensures Balanced(s, a, s', id)
  {
    hide CallsUnderWay, Commits, Snapshot;
  }

  lemma ResponsePublishBalanced(s: State, a: Action, s': State, id: string)
    requires a.ResponsePublish? && ResponseNext(s, a) == Some(s')
    ensures Balanced(s, a, s', id)
  {
    hide CallsUnderWay, Commits;
  }

  lemma StatusBalanced(s: State, a: Action, s': State, id: string)
    requires StatusAction(a) && StatusNext(s, a) == Some(s') && StatusOk(s.db, s.status)
    ensures Balanced(s, a, s', id)
  {
    hide StatusNext, Balanced, StatusOk;
    match a
    case StatusTake(_, _) => StatusTakeBalanced(s, a, s', id);
    case StatusCommit(_, _) => StatusCommitBalanced(s, a, s', id);
    case StatusReread(_) => StatusRereadBalanced(s, a, s', id);
    case StatusPublish(_) => StatusPublishBalanced(s, a, s', id);
  }

  lemma StatusTakeBalanced(s: State, a: Action, s': State, id: string)
    requires a.StatusTake? && StatusNext(s, a) == Some(s')
    ensures Balanced(s, a, s', id)
  {
    hide CallsUnderWay, Commits, Decide, FinalFare, Handling;
    HandlingTouches(s, s.status.queue[0]);
  }

  lemma StatusCommitBalanced(s: State, a: Action, s': State, id: string)
    requires a.StatusCommit? && StatusNext(s, a) == Some(s') && StatusOk(s.db, s.status)
    ensures Balanced(s, a, s', id)
  {
    hide CallsUnderWay, Commits, WithStatus, Decide, StatusDone;
    var m, pc := s.status.queue[0], s.status.pc;
    if a.ok {
      CommitCounts(s.db, id, m.rideId, s'.db.rides[m.rideId],
                   StatusChanged(s.db.rides[m.rideId].status, pc.newStatus, m.driverId,
                                 if pc.newStatus == Completed then pc.fare else None));
    }
  }

  lemma StatusRereadBalanced(s: State, a: Action, s': State, id: string)
    requires a.StatusReread? && StatusNext(s, a) == Some(s') && StatusOk(s.db, s.status)
    ensures Balanced(s, a, s', id)
  {
    hide CallsUnderWay, Commits, Decide;
  }

  lemma StatusPublishBalanced(s: State, a: Action, s': State, id: string)
    requires a.StatusPublish? && StatusNext(s, a) == Some(s')
    ensures Balanced(s, a, s', id)
  {
    hide CallsUnderWay, Commits;
  }

  /** New messages go to the back of a queue. */
  lemma QueueBalanced(s: State, a: Action, s': State, id: string)
    requires DriverAction(a) && DriverNext(s, a) == Some(s') && StatusOk(s.db, s.status)
    ensures Balanced(s, a, s', id)
  {
    hide DriverNext, CallsUnderWay, StatusDone, Commits;
    DriverTouches(s, a, s');
    DriverSends(s, a, s');
  }

  lemma DriverSends(s: State, a: Action, s': State)
    requires DriverAction(a) && DriverNext(s, a) == Some(s')
    ensures s.status.queue <= s'.status.queue && |s'.rideStatus| <= |s.rideStatus|
  {
    hide StatusMessageFor, ShouldSendRideDetails;
  }

  lemma ResponseArriveBalanced(s: State, a: Action, s': State, id: string)
    requires a.ResponseArrive? && Next(s, a) == Some(s') && ResponseOk(s.db, s.response)
    ensures Balanced(s, a, s', id)
  {
    hide CallsUnderWay, Commits;
  }

  lemma NextBalanced(s: State, a: Action, s': State, id: string)
    requires Inv(s) && Next(s, a) == Some(s')
    ensures Balanced(s, a, s', id)
  {
    hide CreateNext, TimerNext, CancelNext, ResponseNext, StatusNext, DriverNext, Balanced;
    hide StatusOk, FareOk, ResponseOk, MessagesInv, OrderInv, CallOk, TimerOk, RowOk;
    if a.CreateCommit? || a.CreatePublish? || a.CreateArm? {
      CreateBalanced(s, a, s', id);
    } else if a.TimerFire? || a.CallbackRead? {
      TimerBalanced(s, a, s', id);
    } else if a.CancelBegin? {
      CancelBeginBalanced(s, a, s', id);
    } else if CancelStep(a) {
      CallExists(s, a);
      CancelBalanced(s, a, s', id);
    } else if ResponseAction(a) {
      ResponseBalanced(s, a, s', id);
    } else if StatusAction(a) {
      StatusBalanced(s, a, s', id);
    } else if a.ResponseArrive? {
      ResponseArriveBalanced(s, a, s', id);
    } else {
      QueueBalanced(s, a, s', id);
    }
  }

  lemma CallExists(s: State, a: Action)
    requires CancelStep(a) && CancelNext(s, a).Some?
    ensures a.call in s.calls
  {
    hide CancelTx, CalculateRefund;
  }

  lemma {:induction false} RunBalanced(s: State, actions: seq<Action>, id: string)
    requires Inv(s) && Run(s, actions).Some?
    ensures Over(Run(s, actions).value, id) == Over(s, id) + Sent(s, actions, id) + Lost(s, actions, id)
    decreases |actions|
  {
    hide Next, Inv, Over, Announces, Loses;
    if actions != [] {
      var s' := Next(s, actions[0]).value;
      NextKeepsInv(s, actions[0], s');
      NextBalanced(s, actions[0], s', id);
      RunBalanced(s', actions[1..], id);
    }
  }

  /**
   Every commit of a ride after its request is announced exactly once, or lost in exactly one failed read or publish of
   its own, or still on its way to one of the two.
   */
  lemma AnnouncementsConserved(actions: seq<Action>, id: string)
    requires Run(Init(), actions).Some? && id in Run(Init(), actions).value.db.rides
    ensures var t := Run(Init(), actions).value;
            |EventsOf(t.db, id)| == 1 + Sent(Init(), actions, id) + Lost(Init(), actions, id) + UnderWay(t, id)
  {
    hide Next, Sent, Lost, UnderWay;
    InitInv();
    RunBalanced(Init(), actions, id);
    NothingUnderWay(id);
  }

  lemma NothingUnderWay(id: string)
    ensures UnderWay(Init(), id) == 0
  {
  }
}
