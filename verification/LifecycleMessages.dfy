/**
 What announcements say (internal/ride/events.go, internal/ride/service.go): each carries the status and the driver of
 the row as its handler read it again after its commit.
 */
module LifecycleMessages {
  import opened Prelude
  import opened Fare
  import opened RideStore
  import opened RideInvariant
  import opened Lifecycle
  import opened LifecycleInvariant
  import opened LifecycleRuns
  import opened LifecycleFrames
  import opened LifecycleSteps
  import opened LifecycleTheorems
  import opened LifecycleLimits
  import opened LifecycleAnnouncements
  import opened LifecycleOrigins

  /** The j-th action is a successful read after a commit, and finds the ride like this. */
  ghost predicate ReadAgain(actions: seq<Action>, j: nat, id: string, ride: Ride)
    requires Run(Init(), actions).Some?
  {
    && j < |actions|
    && (actions[j].StatusReread? || actions[j].ResponseReread? || actions[j].CancelReread?) && actions[j].ok
    && id in Before(actions, j).db.rides && Before(actions, j).db.rides[id] == ride
  }

  /** The message says of this row what is to be said: its ride, its status, and its driver or nobody. */
  predicate Says(m: RideStatusMessage, id: string, ride: Ride) {
    && m.rideId == id && m.status == ride.status
    && (if ride.driverId.Some? then m.driverId == ride.driverId.value else m.driverId == "")
  }

  lemma ReadAgainInFront(actions: seq<Action>, j: nat, id: string, ride: Ride)
    requires j < |actions| - 1 && Run(Init(), actions).Some? && Run(Init(), actions[..|actions| - 1]).Some?
    requires ReadAgain(actions[..|actions| - 1], j, id, ride)
    ensures ReadAgain(actions, j, id, ride)
  {
    hide Run, Before;
    BeforeInFront(actions, j);
  }

  // ----- rows kept for an announcement

  /** The row that the consumer or call is going to announce. */
  datatype Actor = StatusActor | ResponseActor | CallActor(k: CallId)

  ghost predicate Keeps(s: State, actor: Actor, id: string, ride: Ride) {
    match actor
    case StatusActor => s.status.pc == AtStatusPublish(ride) && s.status.queue != [] && s.status.queue[0].rideId == id
    case ResponseActor =>
      && (s.response.pc == AtResponseClear(ride) || s.response.pc == AtResponsePublish(ride))
      && s.response.queue != [] && s.response.queue[0].rideId == id
    case CallActor(k) =>
      k in s.calls && (s.calls[k] == AtCancelClear(id, ride) || s.calls[k] == AtCancelPublish(id, ride))
  }

  /** It has just been read, or was kept before. */
  ghost predicate KeptFrom(s: State, a: Action, s': State, actor: Actor, id: string, ride: Ride) {
    Keeps(s', actor, id, ride) ==>
      || Keeps(s, actor, id, ride)
      || ((a.StatusReread? || a.ResponseReread? || a.CancelReread?) && a.ok && id in s.db.rides
          && s.db.rides[id] == ride)
  }

  lemma StatusKeeps(s: State, a: Action, s': State, actor: Actor, id: string, ride: Ride)
    requires StatusAction(a) && StatusNext(s, a) == Some(s')
    ensures KeptFrom(s, a, s', actor, id, ride)
  {
    hide StatusNext;
    StatusTouches(s, a, s');
    if actor.StatusActor? { StatusPublishing(s, a, s'); }
  }

  lemma StatusPublishing(s: State, a: Action, s': State)
    requires StatusAction(a) && StatusNext(s, a) == Some(s')
    ensures s'.status.pc.AtStatusPublish? ==>
              && a == StatusReread(true) && s.status.queue != [] && s'.status.queue == s.status.queue
              && s.status.queue[0].rideId in s.db.rides && s'.status.pc.ride == s.db.rides[s.status.queue[0].rideId]
  {
    hide StatusTx, Handling, Decided;
    if a.StatusTake? && s.status.queue != [] {
      HandlingTouches(s, s.status.queue[0]);
      if s.status.queue[0].rideId in s.db.rides { NeverPublishing(s.status, s.db.rides[s.status.queue[0].rideId],
          a.now); }
    }
  }

  lemma NeverPublishing(c: StatusConsumer, ride: Ride, now: int)
    requires c.queue != []
    ensures !Decided(c, ride, now).pc.AtStatusPublish?
  {
    hide FinalFare, Decide;
  }

  lemma ResponseKeeps(s: State, a: Action, s': State, actor: Actor, id: string, ride: Ride)
    requires ResponseAction(a) && ResponseNext(s, a) == Some(s')
    ensures KeptFrom(s, a, s', actor, id, ride)
  {
    hide ResponseNext;
    ResponseTouches(s, a, s');
    if actor.ResponseActor? { ResponsePublishing(s, a, s'); }
  }

  lemma ResponsePublishing(s: State, a: Action, s': State)
    requires ResponseAction(a) && ResponseNext(s, a) == Some(s')
    ensures s.response.queue != []
    ensures s'.response.pc.AtResponseClear? ==>
              && a == ResponseReread(true) && s'.response.queue == s.response.queue
              && s.response.queue[0].rideId in s.db.rides
                  && s'.response.pc.ride == s.db.rides[s.response.queue[0].rideId]
    ensures s'.response.pc.AtResponsePublish? ==>
              && s'.response.queue == s.response.queue && s.response.pc == AtResponseClear(s'.response.pc.ride)
  {
    hide MatchTx;
  }

  lemma CancelKeeps(s: State, a: Action, s': State, actor: Actor, id: string, ride: Ride)
    requires CancelStep(a) && CancelNext(s, a) == Some(s')
    ensures KeptFrom(s, a, s', actor, id, ride)
  {
    hide CancelNext;
    CancelTouches(s, a, s');
    if actor.CallActor? { CancelPublishing(s, a, s'); }
  }

  lemma CancelPublishing(s: State, a: Action, s': State)
    requires CancelStep(a) && CancelNext(s, a) == Some(s') && a.call in s.calls
    ensures KeepsAsRead(s, a, s')
  {
    hide CancelNext, KeepsAsRead;
    match a
    case CancelRead(_, _) => CancelWriting(s, a, s');
    case CancelCommit(_, _, _) => CancelWriting(s, a, s');
    case CancelReread(_, _) => CancelRereading(s, a, s');
    case CancelClear(_) => CancelRereading(s, a, s');
    case CancelPublish(_, _) => CancelRereading(s, a, s');
  }

  ghost predicate KeepsAsRead(s: State, a: Action, s': State)
    requires CancelStep(a) && a.call in s.calls
  {
    var k := a.call;
    && (k in s'.calls && s'.calls[k].AtCancelClear? ==>
          && a == CancelReread(k, true) && s'.calls[k].rideId in s.db.rides
          && s'.calls[k].ride == s.db.rides[s'.calls[k].rideId])
    && (k in s'.calls && s'.calls[k].AtCancelPublish? ==>
          s.calls[k] == AtCancelClear(s'.calls[k].rideId, s'.calls[k].ride))
  }

  lemma CancelWriting(s: State, a: Action, s': State)
    requires (a.CancelRead? || a.CancelCommit?) && CancelNext(s, a) == Some(s') && a.call in s.calls
    ensures KeepsAsRead(s, a, s')
  {
    hide CancelTx, CalculateRefund;
  }

  lemma CancelRereading(s: State, a: Action, s': State)
    requires (a.CancelReread? || a.CancelClear? || a.CancelPublish?) && CancelNext(s, a) == Some(s')
              && a.call in s.calls
    ensures KeepsAsRead(s, a, s')
  {
    hide StatusMessageFor;
  }

  lemma DriverKeeps(s: State, a: Action, s': State, actor: Actor, id: string, ride: Ride)
    requires DriverAction(a) && DriverNext(s, a) == Some(s') && StatusOk(s.db, s.status)
    ensures KeptFrom(s, a, s', actor, id, ride)
  {
    hide DriverNext;
    DriverTouches(s, a, s');
    DriverSends(s, a, s');
  }

  /** Beginnings and arrivals of responses keep no row and disturb none. */
  lemma OthersKeep(s: State, a: Action, s': State, actor: Actor, id: string, ride: Ride)
    requires Next(s, a) == Some(s') && ResponseOk(s.db, s.response) && TimersInv(s)
    requires a.CreateCommit? || a.CreatePublish? || a.CreateArm? || a.TimerFire? || a.CallbackRead? || a.CancelBegin?
             || a.ResponseArrive?
    ensures KeptFrom(s, a, s', actor, id, ride)
  {
    hide CalculateFareEstimate, CreateTx, TimerOk;
  }

  lemma NextKeeps(s: State, a: Action, s': State, actor: Actor, id: string, ride: Ride)
    requires Inv(s) && Next(s, a) == Some(s')
    ensures KeptFrom(s, a, s', actor, id, ride)
  {
    hide CreateNext, TimerNext, CancelNext, ResponseNext, StatusNext, DriverNext, KeptFrom;
    hide DbInv, CallsInv, StatusOk, FareOk, ResponseOk, MessagesInv, TimersInv, OrderInv;
    if StatusAction(a) { StatusKeeps(s, a, s', actor, id, ride); }
    else if ResponseAction(a) { ResponseKeeps(s, a, s', actor, id, ride); }
    else if CancelStep(a) { CancelKeeps(s, a, s', actor, id, ride); }
    else if DriverAction(a) { DriverKeeps(s, a, s', actor, id, ride); }
    else { OthersKeep(s, a, s', actor, id, ride); }
  }

  /** A row kept for an announcement was read after the commit. */
  lemma {:induction false} KeptOrigin(actions: seq<Action>, actor: Actor, id: string, ride: Ride) returns (j: nat)
    requires Run(Init(), actions).Some? && Keeps(Run(Init(), actions).value, actor, id, ride)
    ensures ReadAgain(actions, j, id, ride)
    decreases |actions|
  {
    hide Next, Run, Inv, Keeps, ReadAgain;
    if actions == [] {
      NothingKept(actor, id, ride);
      assert false;
    } else {
      var last := |actions| - 1;
      var s, a, s' := Before(actions, last), actions[last], Run(Init(), actions).value;
      LastStep(actions);
      InvAlong(actions, last);
      NextKeeps(s, a, s', actor, id, ride);
      if Keeps(s, actor, id, ride) {
        j := KeptOrigin(actions[..last], actor, id, ride);
        ReadAgainBound(actions[..last], j, id, ride);
        ReadAgainInFront(actions, j, id, ride);
      } else {
        j := last;
        ReadAgainNow(actions, id, ride);
      }
    }
  }

  lemma NothingKept(actor: Actor, id: string, ride: Ride)
    ensures !Keeps(Run(Init(), []).value, actor, id, ride)
  {
  }

  lemma ReadAgainBound(actions: seq<Action>, j: nat, id: string, ride: Ride)
    requires Run(Init(), actions).Some? && ReadAgain(actions, j, id, ride)
    ensures j < |actions|
  {
  }

  lemma ReadAgainNow(actions: seq<Action>, id: string, ride: Ride)
    requires actions != [] && Run(Init(), actions).Some?
    requires var s, a := Before(actions, |actions| - 1), actions[|actions| - 1];
             && (a.StatusReread? || a.ResponseReread? || a.CancelReread?) && a.ok
             && id in s.db.rides && s.db.rides[id] == ride
    ensures ReadAgain(actions, |actions| - 1, id, ride)
  {
    hide Run, Before;
  }

  // ----- what is published

  /** An action adds at most one message to ride_status, and it says what its actor has kept. */
  lemma PublishSays(s: State, a: Action, s': State) returns (actor: Actor, id: string, ride: Ride)
    requires Inv(s) && Next(s, a) == Some(s') && |s'.rideStatus| > |s.rideStatus|
    ensures Keeps(s, actor, id, ride)
    ensures |s'.rideStatus| == |s.rideStatus| + 1 && s'.rideStatus[..|s.rideStatus|] == s.rideStatus
    ensures Says(s'.rideStatus[|s.rideStatus|], id, ride)
  {
    hide DbInv, CallsInv, StatusOk, FareOk, ResponseOk, MessagesInv, TimersInv, OrderInv, Next, Keeps, Says;
    OnlyPublishesSend(s, a, s');
    if a.StatusPublish? {
      actor, id, ride := StatusActor, s.status.queue[0].rideId, s.status.pc.ride;
      ReportSays(s, s');
    } else if a.ResponsePublish? {
      actor, id, ride := ResponseActor, s.response.queue[0].rideId, s.response.pc.ride;
      MatchSays(s, s');
    } else {
      actor, id, ride := CallActor(a.call), s.calls[a.call].rideId, s.calls[a.call].ride;
      CancelSays(s, a.call, s');
    }
  }

  lemma ReportSays(s: State, s': State)
    requires Next(s, StatusPublish(true)) == Some(s') && s.status.queue != [] && s.status.pc.AtStatusPublish?
    ensures var id, ride := s.status.queue[0].rideId, s.status.pc.ride;
            && Keeps(s, StatusActor, id, ride) && |s'.rideStatus| == |s.rideStatus| + 1
            && s'.rideStatus[..|s.rideStatus|] == s.rideStatus && Says(s'.rideStatus[|s.rideStatus|], id, ride)
  {
    hide CreateNext, TimerNext, CancelNext, ResponseNext, DriverNext;
  }

  lemma MatchSays(s: State, s': State)
    requires Next(s, ResponsePublish(true)) == Some(s') && s.response.queue != [] && s.response.pc.AtResponsePublish?
    ensures var id, ride := s.response.queue[0].rideId, s.response.pc.ride;
            && Keeps(s, ResponseActor, id, ride) && |s'.rideStatus| == |s.rideStatus| + 1
            && s'.rideStatus[..|s.rideStatus|] == s.rideStatus && Says(s'.rideStatus[|s.rideStatus|], id, ride)
  {
    hide CreateNext, TimerNext, CancelNext, StatusNext, DriverNext;
  }

  lemma CancelSays(s: State, k: CallId, s': State)
    requires Next(s, CancelPublish(k, true)) == Some(s') && k in s.calls && s.calls[k].AtCancelPublish?
    ensures var id, ride := s.calls[k].rideId, s.calls[k].ride;
            && Keeps(s, CallActor(k), id, ride) && |s'.rideStatus| == |s.rideStatus| + 1
            && s'.rideStatus[..|s.rideStatus|] == s.rideStatus && Says(s'.rideStatus[|s.rideStatus|], id, ride)
  {
    hide CreateNext, TimerNext, ResponseNext, StatusNext, DriverNext;
  }

  /** Only a successful publish lengthens the ride_status queue. */
  lemma OnlyPublishesSend(s: State, a: Action, s': State)
    requires Next(s, a) == Some(s') && |s'.rideStatus| > |s.rideStatus|
    ensures || (a == StatusPublish(true) && s.status.queue != [] && s.status.pc.AtStatusPublish?)
            || (a == ResponsePublish(true) && s.response.queue != [] && s.response.pc.AtResponsePublish?)
            || (a.CancelPublish? && a.ok && a.call in s.calls && s.calls[a.call].AtCancelPublish?)
  {
    hide CreateNext, TimerNext, CancelNext, ResponseNext, StatusNext, DriverNext;
    if StatusAction(a) { StatusSends(s, a, s'); }
    else if ResponseAction(a) { ResponseSends(s, a, s'); }
    else if CancelStep(a) { CancelSends(s, a, s'); }
    else if DriverAction(a) { DriverSends(s, a, s'); }
    else { OthersSend(s, a, s'); }
  }

  lemma StatusSends(s: State, a: Action, s': State)
    requires StatusAction(a) && StatusNext(s, a) == Some(s') && |s'.rideStatus| > |s.rideStatus|
    ensures a == StatusPublish(true) && s.status.queue != [] && s.status.pc.AtStatusPublish?
  {
    hide StatusTx, Decided, Handling;
    if a.StatusTake? { HandlingTouches(s, s.status.queue[0]); }
  }

  lemma ResponseSends(s: State, a: Action, s': State)
    requires ResponseAction(a) && ResponseNext(s, a) == Some(s') && |s'.rideStatus| > |s.rideStatus|
    ensures a == ResponsePublish(true) && s.response.queue != [] && s.response.pc.AtResponsePublish?
  {
    hide MatchTx;
  }

  lemma CancelSends(s: State, a: Action, s': State)
    requires CancelStep(a) && CancelNext(s, a) == Some(s') && |s'.rideStatus| > |s.rideStatus|
    ensures a.CancelPublish? && a.ok && a.call in s.calls && s.calls[a.call].AtCancelPublish?
  {
    hide CancelTx, CalculateRefund;
  }

  lemma OthersSend(s: State, a: Action, s': State)
    requires Next(s, a) == Some(s') && !StatusAction(a) && !ResponseAction(a) && !CancelStep(a) && !DriverAction(a)
    ensures s'.rideStatus == s.rideStatus
  {
    hide CalculateFareEstimate, CreateTx, CancelNext, ResponseNext, StatusNext, DriverNext;
  }

  /** Every message ever published to ride_status says what the row was when its handler read it again. */
  lemma AnnouncementOrigin(actions: seq<Action>, a: Action, t': State) returns (j: nat, id: string, ride: Ride)
    requires Run(Init(), actions).Some? && Next(Run(Init(), actions).value, a) == Some(t')
    requires |t'.rideStatus| > |Run(Init(), actions).value.rideStatus|
    ensures ReadAgain(actions, j, id, ride)
    ensures var t := Run(Init(), actions).value;
            && |t'.rideStatus| == |t.rideStatus| + 1 && t'.rideStatus[..|t.rideStatus|] == t.rideStatus
            && Says(t'.rideStatus[|t.rideStatus|], id, ride)
  {
    hide Next, Run, Inv, Keeps, ReadAgain, Says;
    var t := Run(Init(), actions).value;
    InitInv();
    RunKeepsInv(Init(), actions);
    var actor;
    actor, id, ride := PublishSays(t, a, t');
    j := KeptOrigin(actions, actor, id, ride);
  }

  // ----- matches

  /**
   A match is announced with its driver; as MATCHED exactly if nothing else of the ride was committed before the re-
   read.
   */
  lemma MatchAnnouncedExactly(actions: seq<Action>, t': State) returns (j: nat)
    requires Run(Init(), actions).Some? && Next(Run(Init(), actions).value, ResponsePublish(true)) == Some(t')
    ensures var t := Run(Init(), actions).value;
            && t.response.queue != [] && j < |actions|
            && var m := t.response.queue[0];
            && m.rideId in Before(actions, j).db.rides && EventsOf(Before(actions, j).db, m.rideId) != []
            && var row, log := Before(actions, j).db.rides[m.rideId], EventsOf(Before(actions, j).db, m.rideId);
            && t'.rideStatus == t.rideStatus + [RideStatusMessage(m.rideId, row.status, m.driverId)]
            && (row.status == Matched <==> log[|log| - 1].DriverMatched?)
  {
    hide Next, Run, Inv, Before, Keeps;
    var t := Run(Init(), actions).value;
    InitInv();
    RunKeepsInv(Init(), actions);
    MatchPublishing(t, t');
    var m, ride := t.response.queue[0], t.response.pc.ride;
    MatchSays(t, t');
    j := KeptOrigin(actions, ResponseActor, m.rideId, ride);
    InvAlong(actions, j);
    MatchedIsLast(Before(actions, j), m.rideId);
  }

  lemma MatchPublishing(s: State, s': State)
    requires Inv(s) && Next(s, ResponsePublish(true)) == Some(s')
    ensures s.response.queue != [] && s.response.pc.AtResponsePublish?
    ensures s.response.pc.ride.driverId == Some(s.response.queue[0].driverId)
  {
    hide CreateNext, TimerNext, CancelNext, StatusNext, DriverNext;
    hide DbInv, CallsInv, StatusOk, FareOk, MessagesInv, TimersInv, OrderInv;
  }

  lemma MatchedIsLast(s: State, id: string)
    requires Inv(s) && id in s.db.rides
    ensures var log := EventsOf(s.db, id);
            log != [] && (s.db.rides[id].status == Matched <==> log[|log| - 1].DriverMatched?)
  {
    hide CallsInv, StatusOk, FareOk, ResponseOk, MessagesInv, TimersInv, OrderInv, RowFacts, Replay;
    var ride, log := s.db.rides[id], s.db.log[id];
    assert RowOk(ride, log);
    LastStatus(ride, log);
    EarlyStatuses(log, ride.estimatedFare, |log| - 1);
    assert Linked(log, |log| - 1);
    assert |log| > 1 ==> LegalEvent(log[|log| - 1], ride.estimatedFare);
  }

  // ----- reports

  /** A report is announced with exactly the status it means, and on the way to the passenger with its own driver. */
  lemma ReportAnnounced(actions: seq<Action>, s: State, s': State)
    requires Run(Init(), actions) == Some(s) && Next(s, StatusPublish(true)) == Some(s')
    ensures s.status.queue != [] && |s'.rideStatus| == |s.rideStatus| + 1
              && s'.rideStatus[..|s.rideStatus|] == s.rideStatus
    ensures var m, sent := s.status.queue[0], s'.rideStatus[|s.rideStatus|];
            && sent.rideId == m.rideId && MeansStatus(m.status, sent.status)
            && (m.status == EN_ROUTE || m.status == ARRIVED ==> sent.driverId == m.driverId)
  {
    hide Next, Run, Inv, Before, Keeps;
    InitInv();
    RunKeepsInv(Init(), actions);
    ReportPublishing(s, s');
    ReportSays(s, s');
    var id, ride := s.status.queue[0].rideId, s.status.pc.ride;
    var j := KeptOrigin(actions, StatusActor, id, ride);
    InvAlong(actions, j);
    if ride.status == EnRoute || ride.status == Arrived { DriverOfStatus(Before(actions, j), id); }
  }

  lemma ReportPublishing(s: State, s': State)
    requires Inv(s) && Next(s, StatusPublish(true)) == Some(s')
    ensures s.status.queue != [] && s.status.pc.AtStatusPublish?
    ensures var m, ride := s.status.queue[0], s.status.pc.ride;
            && MeansStatus(m.status, ride.status)
            && (m.status == EN_ROUTE || m.status == ARRIVED ==> ride.driverId.Some? ==>
                ride.driverId == Some(m.driverId))
  {
    hide CreateNext, TimerNext, CancelNext, ResponseNext, DriverNext;
    hide DbInv, CallsInv, FareOk, ResponseOk, TimersInv, OrderInv, Decide;
    assert Agrees(s.db, s.status.queue[0]);
  }

  lemma DriverOfStatus(s: State, id: string)
    requires Inv(s) && id in s.db.rides && (s.db.rides[id].status == EnRoute || s.db.rides[id].status == Arrived)
    ensures s.db.rides[id].driverId.Some?
  {
    hide CallsInv, StatusOk, FareOk, ResponseOk, MessagesInv, TimersInv, OrderInv;
    assert RowOk(s.db.rides[id], s.db.log[id]);
  }

  // ----- a match that is never announced as such

  /** A cancellation between a match's commit and its re-read: the one announcement of the match says CANCELLED. */
  lemma MatchAnnouncedAsCancelled(id: string) returns (actions: seq<Action>)
    requires id != ""
    ensures Run(Init(), actions).Some?
    ensures var t := Run(Init(), actions).value;
            && id in t.db.rides && HasReached(EventsOf(t.db, id), Matched)
            && t.rideStatus == [RideStatusMessage(id, Cancelled, "driver")]
            && t.response.queue == []
  {
    hide Run, Next, Created, JustMatched;
    var c := Created(id);
    CreatedIsReached(id);
    CreatedFacts(id);
    MatchReached(c, id);
    JustMatchedFacts(c, id);
    var m := JustMatched(c, id);
    var match_ := [ResponseArrive(Response(id)), ResponseTake(true, 0)];
    CancelReached(m, id);
    var cancel := [CancelBegin(0, id, "", "r"), CancelRead(HttpCall(0), true), CancelCommit(HttpCall(0), true, 0)];
    var x := Run(m, cancel).value;
    JustMatchedPc(c, id);
    FinishResponse(x, true);
    var finish := [ResponseReread(true), ResponseClear, ResponsePublish(true)];
    RunAppend(Init(), CreateActions(id), match_);
    RunAppend(Init(), CreateActions(id) + match_, cancel);
    RunAppend(Init(), CreateActions(id) + match_ + cancel, finish);
    actions := CreateActions(id) + match_ + cancel + finish;
    MatchStaysInLog(c, id, m, cancel, x);
  }

  lemma JustMatchedPc(s: State, id: string)
    ensures JustMatched(s, id).response == ResponseConsumer([Response(id)], AtResponseReread, 1)
  {
  }

  lemma MatchStaysInLog(c: State, id: string, m: State, cancel: seq<Action>, x: State)
    requires Reachable(c) && id != "" && id in c.db.rides && c.db.rides[id].status == Requested
    requires c.response == ResponseConsumer([], ResponseIdle, 0) && m == JustMatched(c, id) && Run(m, cancel) == Some(x)
    ensures HasReached(EventsOf(x.db, id), Matched)
    ensures id in x.db.rides && x.db.rides[id].driverId == Some("driver")
  {
    hide Run, Next, Reachable;
    MatchReached(c, id);
    JustMatchedFacts(c, id);
    ReachableThen(c, [ResponseArrive(Response(id)), ResponseTake(true, 0)], m);
    ReachableInv(m);
    RunEvolves(m, cancel, x);
    MatchLogged(c, id);
    ReachedStays(EventsOf(m.db, id), EventsOf(x.db, id), Matched);
  }

  lemma MatchLogged(c: State, id: string)
    requires id in c.db.rides && c.db.rides[id].status == Requested
    ensures id in JustMatched(c, id).db.log && HasReached(EventsOf(JustMatched(c, id).db, id), Matched)
  {
    ReachedAppend(EventsOf(c.db, id), DriverMatched(Requested, Matched, "driver"));
  }

  lemma ReachedStays(early: seq<Event>, late: seq<Event>, status: Status)
    requires early <= late && HasReached(early, status)
    ensures HasReached(late, status)
  {
    var i :| 0 <= i < |early| && StatusAfter(early[i]) == status;
    assert StatusAfter(late[i]) == status;
  }
}
