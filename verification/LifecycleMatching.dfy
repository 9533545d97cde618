/**
 The matcher and the ride service together (internal/driverlocation/matching.go, internal/ride/consumer.go): the only
 driver responses that reach the ride service are the matches that the matcher publishes.
 */
module LifecycleMatching {
  import opened Prelude
  import M = Matching
  import opened RideStore
  import opened RideInvariant
  import opened Lifecycle
  import opened LifecycleInvariant
  import opened LifecycleRuns
  import opened LifecycleFrames
  import opened LifecycleSteps
  import opened LifecycleTheorems

  datatype Joint = Joint(matcher: M.State, rides: State)

  /**
   An action of the matcher, whose successful publish is a response arriving, or any other action of the lifecycle.
   */
  datatype JointAction = MatcherActs(m: M.Action) | RidesAct(a: Action)

  function JointNext(j: Joint, a: JointAction): Option<Joint> {
    match a
    case RidesAct(b) =>
      if b.ResponseArrive? then None
      else (match Next(j.rides, b) case None => None case Some(s) => Some(j.(rides := s)))
    case MatcherActs(b) =>
      match M.Next(j.matcher, b)
      case None => None
      case Some(m) =>
        if |m.published| == |j.matcher.published| then Some(j.(matcher := m))
        else
          match Next(j.rides, ResponseArrive(ResponseOf(m.published[|m.published| - 1])))
          case None => None
          case Some(s) => Some(Joint(m, s))
  }

  /** The message of a successful match. */
  function ResponseOf(p: M.Published): DriverResponse {
    DriverResponse(p.rideId, p.driverId, true)
  }

  function JointRun(j: Joint, actions: seq<JointAction>): Option<Joint>
    decreases |actions|
  {
    if actions == [] then Some(j)
    else match JointNext(j, actions[0]) case None => None case Some(j') => JointRun(j', actions[1..])
  }

  ghost predicate Matches(m: M.State, rideId: string, driverId: string) {
    exists p :: p in m.published && p.rideId == rideId && p.driverId == driverId
  }

  /** Every response on its way, and every driver in a row, is a published match. */
  ghost predicate JointInv(j: Joint) {
    && M.Inv(j.matcher) && Inv(j.rides)
    && (forall r <- j.rides.response.queue :: Matches(j.matcher, r.rideId, r.driverId))
    && (forall id <- j.rides.db.rides ::
          j.rides.db.rides[id].driverId.Some? ==> Matches(j.matcher, id, j.rides.db.rides[id].driverId.value))
  }

  // ----- where drivers come from

  /** Only taking up the response at the head gives a ride a driver. */
  ghost predicate DriversFrame(s: State, s': State) {
    forall id <- s'.db.rides :: s'.db.rides[id].driverId.Some? ==>
      || (id in s.db.rides && s'.db.rides[id].driverId == s.db.rides[id].driverId)
      || (s.response.queue != [] && s.response.queue[0].rideId == id
          && s'.db.rides[id].driverId == Some(s.response.queue[0].driverId))
  }

  /** Only the matcher adds responses. */
  ghost predicate ResponsesFrame(s: State, s': State) {
    forall r <- s'.response.queue :: r in s.response.queue
  }

  lemma NextFrame(s: State, a: Action, s': State)
    requires Next(s, a) == Some(s') && !a.ResponseArrive?
    ensures DriversFrame(s, s') && ResponsesFrame(s, s')
  {
    hide CreateNext, TimerNext, CancelNext, ResponseNext, StatusNext, DriverNext, DriversFrame, ResponsesFrame;
    NextQuiet(s, a, s');
    if a.ResponseTake? {
      TakeFrame(s, a, s');
    } else if a.ResponseReread? || a.ResponseClear? || a.ResponsePublish? {
      FinishFrame(s, a, s');
    } else {
      SameResponses(s, a, s');
      if a.CreateCommit? {
        CreateFrame(s, a, s');
      } else if a.CancelCommit? {
        CancelFrame(s, a, s');
      } else if a.StatusCommit? {
        StatusFrame(s, a, s');
      } else {
        SameRows(s, s');
      }
    }
  }

  lemma SameRows(s: State, s': State)
    requires s'.db == s.db
    ensures DriversFrame(s, s')
  {
  }

  lemma TakeFrame(s: State, a: Action, s': State)
    requires a.ResponseTake? && ResponseNext(s, a) == Some(s')
    ensures DriversFrame(s, s') && ResponsesFrame(s, s')
  {
  }

  lemma FinishFrame(s: State, a: Action, s': State)
    requires (a.ResponseReread? || a.ResponseClear? || a.ResponsePublish?) && ResponseNext(s, a) == Some(s')
    ensures DriversFrame(s, s') && ResponsesFrame(s, s')
  {
  }

  lemma CreateFrame(s: State, a: Action, s': State)
    requires a.CreateCommit? && CreateNext(s, a) == Some(s')
    ensures DriversFrame(s, s')
  {
  }

  lemma CancelFrame(s: State, a: Action, s': State)
    requires a.CancelCommit? && CancelNext(s, a) == Some(s')
    ensures DriversFrame(s, s')
  {
  }

  lemma StatusFrame(s: State, a: Action, s': State)
    requires a.StatusCommit? && StatusNext(s, a) == Some(s')
    ensures DriversFrame(s, s')
  {
    hide StatusTx;
    var m, pc := s.status.queue[0], s.status.pc;
    StatusTxFrame(s.db, m.rideId, pc.newStatus, m.driverId, pc.fare, a.now);
  }

  lemma StatusTxFrame(db: Db, id: string, newStatus: Status, reportedBy: string, fare: Option<real>, now: int)
    ensures var tx := StatusTx(db, id, newStatus, reportedBy, fare, now);
            tx.Ok? ==>
              forall other <- tx.value.rides ::
                other in db.rides && tx.value.rides[other].driverId == db.rides[other].driverId
  {
  }

  lemma SameResponses(s: State, a: Action, s': State)
    requires Next(s, a) == Some(s') && !a.ResponseArrive?
    requires !a.ResponseTake? && !a.ResponseReread? && !a.ResponseClear? && !a.ResponsePublish?
    ensures ResponsesFrame(s, s')
  {
    hide CreateNext, TimerNext, CancelNext, ResponseNext, StatusNext, DriverNext;
    if CancelStep(a) {
      CancelTouches(s, a, s');
    } else if StatusAction(a) {
      StatusTouches(s, a, s');
    } else if DriverAction(a) {
      DriverTouches(s, a, s');
    } else {
      OthersLeaveResponses(s, a, s');
    }
  }

  lemma OthersLeaveResponses(s: State, a: Action, s': State)
    requires Next(s, a) == Some(s') && !CancelStep(a) && !StatusAction(a) && !DriverAction(a)
    requires !ResponseAction(a) && !a.ResponseArrive?
    ensures s'.response == s.response
  {
    hide CreateTx, CancelNext, ResponseNext, StatusNext, DriverNext;
  }

  // ----- every interleaving of matcher and rides

  lemma MatchesGrow(before: M.State, after: M.State, rideId: string, driverId: string)
    requires before.published <= after.published && Matches(before, rideId, driverId)
    ensures Matches(after, rideId, driverId)
  {
  }

  lemma RidesKeepJoint(j: Joint, a: Action, j': Joint)
    requires JointInv(j) && JointNext(j, RidesAct(a)) == Some(j')
    ensures JointInv(j')
  {
    hide Next, M.Inv, Inv, Matches;
    NextKeepsInv(j.rides, a, j'.rides);
    NextFrame(j.rides, a, j'.rides);
    forall id | id in j'.rides.db.rides && j'.rides.db.rides[id].driverId.Some?
      ensures Matches(j.matcher, id, j'.rides.db.rides[id].driverId.value)
    {
      if j.rides.response.queue != [] {
        var r := j.rides.response.queue[0];
        assert r in j.rides.response.queue;
      }
    }
  }

  /** A matcher's action publishes nothing or one match. */
  lemma MatcherPublishes(m: M.State, a: M.Action, m': M.State)
    requires M.Next(m, a) == Some(m')
    ensures m'.published == m.published
            || (|m'.published| == |m.published| + 1 && m'.published[..|m.published|] == m.published)
  {
  }

  lemma MatcherKeepsJoint(j: Joint, a: M.Action, j': Joint)
    requires JointInv(j) && JointNext(j, MatcherActs(a)) == Some(j')
    ensures JointInv(j')
  {
    hide Next, M.Next, M.Inv, Inv, Matches;
    MatcherPublishes(j.matcher, a, j'.matcher);
    M.NextKeepsInv(j.matcher, a, j'.matcher);
    forall rideId, driverId | Matches(j.matcher, rideId, driverId) ensures Matches(j'.matcher, rideId, driverId) {
      MatchesGrow(j.matcher, j'.matcher, rideId, driverId);
    }
    if |j'.matcher.published| != |j.matcher.published| {
      var p := j'.matcher.published[|j'.matcher.published| - 1];
      NextKeepsInv(j.rides, ResponseArrive(ResponseOf(p)), j'.rides);
      ArrivalFrame(j.rides, ResponseOf(p), j'.rides);
      PublishedMatches(j'.matcher, p);
    }
  }

  /** A successful publish hands the ride service an acceptance by the driver who said yes, for the call's ride. */
  lemma MatchIsHandedOver(j: Joint, k: nat, j': Joint)
    requires JointInv(j) && JointNext(j, MatcherActs(M.Publish(k, true))) == Some(j')
    ensures k in j.matcher.calls && 0 < |j.matcher.calls[k].tried| <= |j.matcher.calls[k].candidates|
    ensures var c := j.matcher.calls[k];
            && c.tried[|c.tried| - 1].answer.Answered? && c.tried[|c.tried| - 1].answer.response.accepted
            && j'.rides.response.queue
               == j.rides.response.queue + [DriverResponse(c.rideId, c.candidates[|c.tried| - 1], true)]
            && j'.rides.db == j.rides.db
  {
    hide Inv, Next, M.ChannelsInv, M.PendingInv, M.PublishedInv, M.AnswerOk, M.TimedOuts, M.Unread, Matches;
    assert M.CallOk(j.matcher.channels, j.matcher.clock, j.matcher.calls[k]);
    PublishArrives(j, k, j');
    var c := j.matcher.calls[k];
    ArrivalFrame(j.rides, DriverResponse(c.rideId, c.candidates[|c.tried| - 1], true), j'.rides);
  }

  lemma PublishArrives(j: Joint, k: nat, j': Joint)
    requires JointNext(j, MatcherActs(M.Publish(k, true))) == Some(j')
    ensures k in j.matcher.calls && 0 < |j.matcher.calls[k].tried| <= |j.matcher.calls[k].candidates|
    ensures j.matcher.calls[k].pc.AtPublish?
    ensures var c := j.matcher.calls[k];
            var r := DriverResponse(c.rideId, c.candidates[|c.tried| - 1], true);
            Next(j.rides, ResponseArrive(r)) == Some(j'.rides)
  {
    hide Next;
  }

  lemma ArrivalFrame(s: State, r: DriverResponse, s': State)
    requires Next(s, ResponseArrive(r)) == Some(s')
    ensures s'.db == s.db && s'.response.queue == s.response.queue + [r]
  {
  }

  lemma PublishedMatches(m: M.State, p: M.Published)
    requires p in m.published
    ensures Matches(m, p.rideId, p.driverId)
  {
  }

  lemma {:induction false} JointRunKeepsInv(j: Joint, actions: seq<JointAction>)
    requires JointInv(j) && JointRun(j, actions).Some?
    ensures JointInv(JointRun(j, actions).value)
    decreases |actions|
  {
    hide JointNext, JointInv;
    if actions != [] {
      var j' := JointNext(j, actions[0]).value;
      match actions[0] {
        case RidesAct(a) => RidesKeepJoint(j, a, j');
        case MatcherActs(m) => MatcherKeepsJoint(j, m, j');
      }
      JointRunKeepsInv(j', actions[1..]);
    }
  }

  lemma InitJoint(clock: int)
    ensures JointInv(Joint(M.Init(clock), Init()))
  {
    InitInv();
    assert M.Inv(M.Init(clock));
  }

  /**
   Whatever the matchers, responses, requests and consumers do, the driver in a row is the first candidate of a match
   attempt for this very ride who accepted an offer of its own.
   */
  lemma DriverAcceptedOwnOffer(clock: int, actions: seq<JointAction>, id: string)
    requires JointRun(Joint(M.Init(clock), Init()), actions).Some?
    requires var j := JointRun(Joint(M.Init(clock), Init()), actions).value;
             id in j.rides.db.rides && j.rides.db.rides[id].driverId.Some?
    ensures var j := JointRun(Joint(M.Init(clock), Init()), actions).value;
            exists k, w ::
              && k in j.matcher.calls && j.matcher.calls[k].rideId == id
              && WonBy(j.matcher.calls[k], w, j.rides.db.rides[id].driverId.value)
  {
    hide JointRun, Next, M.Next, M.CallOk, Inv, M.ChannelsInv, M.PendingInv;
    var j := JointRun(Joint(M.Init(clock), Init()), actions).value;
    InitJoint(clock);
    JointRunKeepsInv(Joint(M.Init(clock), Init()), actions);
    var p :| p in j.matcher.published && p.rideId == id && p.driverId == j.rides.db.rides[id].driverId.value;
    WinnerOf(j.matcher, p);
  }

  /** The w-th candidate of this call, this driver, accepted the offer it was made, and none before it did. */
  ghost predicate WonBy(c: M.Call, w: nat, driverId: string) {
    && w < |c.tried| <= |c.candidates| && c.candidates[w] == driverId
    && c.tried[w].answer.Answered? && c.tried[w].answer.response.accepted
    && c.tried[w].answer.response.offerId == c.tried[w].offerId
    && forall e :: 0 <= e < w ==> c.tried[e].answer.Answered? ==> !c.tried[e].answer.response.accepted
  }

  lemma WinnerOf(m: M.State, p: M.Published)
    requires M.Inv(m) && p in m.published
    ensures p.call in m.calls && m.calls[p.call].rideId == p.rideId
    ensures exists w :: WonBy(m.calls[p.call], w, p.driverId)
  {
    hide M.PendingInv;
    assert M.PublishedOk(m, p);
    var c := m.calls[p.call];
    assert M.CallOk(m.channels, m.clock, c);
    var t := c.tried[|c.tried| - 1];
    assert t in c.tried;
    assert M.AnswerOk(m.channels, t.offerId, t.channel, t.answer);
    assert M.ChannelOk(m.channels[t.channel]);
    assert WonBy(c, |c.tried| - 1, p.driverId);
  }
}
