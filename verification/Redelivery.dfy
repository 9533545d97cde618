/**
 Redelivery is transparent (internal/shared/messaging/consumer.go with internal/ride/service.go).

 Whatever attempts of the two consumers fail and are nacked and requeued, the database goes through the same sequence
 of commits as in some run in which no attempt fails. The proof is a forward simulation: the failure-free system takes
 a driver-status message up only when the failing one commits it, and finishes a committed message at once, losing
 only the publish, when the failing one nacks it.
 */
module Redelivery {
  import opened Prelude
  import opened Fare
  import opened RideStore
  import opened RideInvariant
  import opened Lifecycle
  import opened LifecycleInvariant
  import opened LifecycleSteps
  import opened LifecycleTheorems

  /** An attempt of a message consumer that ends in a nack. */
  predicate Faulty(a: Action) {
    match a
    case ResponseTake(ok, _) => !ok
    case ResponseReread(ok) => !ok
    case StatusTake(ok, _) => !ok
    case StatusCommit(ok, _) => !ok
    case StatusReread(ok) => !ok
    case _ => false
  }

  ghost predicate FailureFree(actions: seq<Action>) {
    forall a <- actions :: !Faulty(a)
  }

  /** The databases produced by the successive commits of a run. */
  function Commits(s: State, actions: seq<Action>): seq<Db>
    decreases |actions|
  {
    if actions == [] then []
    else
      match Next(s, actions[0])
      case None => []
      case Some(s') => (if s'.db != s.db then [s'.db] else []) + Commits(s', actions[1..])
  }

  lemma {:induction false} CommitsAppend(s: State, first: seq<Action>, second: seq<Action>)
    requires Run(s, first).Some?
    ensures Commits(s, first + second) == Commits(s, first) + Commits(Run(s, first).value, second)
    decreases |first|
  {
    hide Next;
    if first == [] {
      assert [] + second == second;
    } else {
      assert (first + second)[1..] == first[1..] + second;
      CommitsAppend(Next(s, first[0]).value, first[1..], second);
    }
  }

  // ----- what reaches the consumers and the rows from elsewhere

  /**
   Actions of everybody but the two consumers and the timers: creations, cancel calls, deliveries and the driver
   service.
   */
  predicate Input(a: Action) {
    match a
    case TimerFire(_) => false
    case CallbackRead(_, _) => false
    case ResponseTake(_, _) => false
    case ResponseReread(_) => false
    case ResponseClear => false
    case ResponsePublish(_) => false
    case StatusTake(_, _) => false
    case StatusCommit(_, _) => false
    case StatusReread(_) => false
    case StatusPublish(_) => false
    case _ => true
  }

  function Kept(a: Action): seq<Action> {
    if Input(a) then [a] else []
  }

  function Inputs(actions: seq<Action>): seq<Action> {
    if actions == [] then [] else Kept(actions[0]) + Inputs(actions[1..])
  }

  ghost predicate Internal(actions: seq<Action>) {
    forall a <- actions :: !Input(a)
  }

  lemma {:induction false} InputsOfInternal(actions: seq<Action>)
    requires Internal(actions)
    ensures Inputs(actions) == []
  {
    if actions != [] { InputsOfInternal(actions[1..]); }
  }

  lemma InputsFirst(a: Action, actions: seq<Action>)
    ensures Inputs([a] + actions) == Kept(a) + Inputs(actions)
  {
    hide Kept;
    assert ([a] + actions)[1..] == actions;
  }

  lemma NoInputs()
    ensures Inputs([]) == []
  {
  }

  lemma {:induction false} InputsAppend(first: seq<Action>, second: seq<Action>)
    ensures Inputs(first + second) == Inputs(first) + Inputs(second)
  {
    hide Inputs, Kept;
    if first == [] {
      NoInputs();
      assert [] + second == second;
    } else {
      var a, rest := first[0], first[1..];
      assert first == [a] + rest && first + second == [a] + (rest + second);
      InputsFirst(a, rest);
      InputsFirst(a, rest + second);
      InputsAppend(rest, second);
    }
  }

  lemma OneAction(s: State, a: Action, s': State)
    requires Next(s, a) == Some(s')
    ensures Run(s, [a]) == Some(s')
    ensures Commits(s, [a]) == if s'.db != s.db then [s'.db] else []
  {
    hide Next;
    assert [a][1..] == [];
    assert Run(s', []) == Some(s') && Commits(s', []) == [];
  }

  // ----- the simulation relation: `c` may fail, `a` does not

  /** The failing system may keep timers that the other has cleared, for rides whose request is resolved. */
  ghost predicate TimersSim(db: Db, c: map<string, bool>, a: map<string, bool>) {
    && (forall id <- a :: id in c && c[id] == a[id])
    && (forall id <- c :: id !in a ==> LeftRequested(db, id))
  }

  /** Hence it may run callbacks that the other does not; they are about to find nothing to do. */
  ghost predicate CallsSim(db: Db, c: map<CallId, CallPc>, a: map<CallId, CallPc>) {
    && (forall k <- a :: k in c && c[k] == a[k])
    && (forall k <- c :: k !in a ==> c[k].AtCallbackGet? && LeftRequested(db, c[k].rideId))
  }

  ghost predicate StatusSim(c: StatusConsumer, a: StatusConsumer) {
    match c.pc
    case AtStatusReread => a == c
    case AtStatusPublish(_) => a == c
    case AtStatusWrite(_, _, _) => a == StatusConsumer(c.queue, StatusIdle, 0)
    case StatusIdle =>
      if c.commits == 0 then a == c
      else c.queue != [] && a == StatusConsumer(c.queue[1..], StatusIdle, 0)
  }

  ghost predicate ResponseSim(c: ResponseConsumer, a: ResponseConsumer) {
    if c.pc.ResponseIdle? && c.commits > 0 then c.queue != [] && a == ResponseConsumer(c.queue[1..], ResponseIdle, 0)
    else a == c
  }

  ghost predicate Sim(c: State, a: State) {
    && a.db == c.db && a.creating == c.creating && a.rideStatus == c.rideStatus && a.arrivals == c.arrivals
    && TimersSim(c.db, c.timers, a.timers) && CallsSim(c.db, c.calls, a.calls)
    && StatusSim(c.status, a.status) && ResponseSim(c.response, a.response)
  }

  // ----- the relation under small updates

  /** Extra timers and callbacks stay harmless while rows evolve. */
  lemma ExtrasStable(c: State, a: State, db: Db)
    requires TimersSim(c.db, c.timers, a.timers) && CallsSim(c.db, c.calls, a.calls) && DbEvolves(c.db, db)
    ensures TimersSim(db, c.timers, a.timers) && CallsSim(db, c.calls, a.calls)
  {
    forall k | k in c.calls && k !in a.calls ensures LeftRequested(db, c.calls[k].rideId) {
      assert LeftRequested(c.db, c.calls[k].rideId);
    }
  }

  lemma SetSim(db: Db, c: map<CallId, CallPc>, a: map<CallId, CallPc>, k: CallId, pc: CallPc)
    requires CallsSim(db, c, a)
    ensures CallsSim(db, c[k := pc], a[k := pc]) && CallsSim(db, c - {k}, a - {k})
  {
  }

  lemma ClearSim(db: Db, c: map<string, bool>, a: map<string, bool>, id: string, armed: bool)
    requires TimersSim(db, c, a)
    ensures TimersSim(db, c[id := armed], a[id := armed]) && TimersSim(db, c - {id}, a - {id})
    ensures LeftRequested(db, id) ==> TimersSim(db, c, a - {id})
  {
  }

  lemma EnqueueSim(c: StatusConsumer, a: StatusConsumer, m: DriverStatusMessage)
    requires StatusSim(c, a)
    ensures StatusSim(c.(queue := c.queue + [m]), a.(queue := a.queue + [m]))
  {
    if c.queue != [] { assert (c.queue + [m])[1..] == c.queue[1..] + [m]; }
  }

  // ----- actions both systems take together

  lemma CreateSim(c: State, a: State, act: Action, c': State)
    requires Sim(c, a) && (act.CreateCommit? || act.CreatePublish? || act.CreateArm?)
    requires CreateNext(c, act) == Some(c') && DbEvolves(c.db, c'.db)
    ensures CreateNext(a, act).Some? && Sim(c', CreateNext(a, act).value)
  {
    hide StatusSim, ResponseSim, TimersSim, CallsSim, CalculateFareEstimate;
    ExtrasStable(c, a, c'.db);
    if act.CreateArm? { ClearSim(c'.db, c.timers, a.timers, act.id, true); }
  }

  lemma CancelReadSim(c: State, a: State, act: Action, c': State)
    requires act.CancelRead? && Sim(c, a) && CancelNext(c, act) == Some(c')
    ensures CancelNext(a, act).Some? && Sim(c', CancelNext(a, act).value)
  {
    hide StatusSim, ResponseSim, TimersSim, CallsSim, CalculateRefund, FailCall;
    FailCallFrame(c, act.call);
    FailCallFrame(a, act.call);
    CallInBoth(c, a, act.call);
    SetSim(c.db, c.calls, a.calls, act.call, if act.call in c'.calls then c'.calls[act.call] else c.calls[act.call]);
  }

  lemma CancelFinishSim(c: State, a: State, act: Action, c': State)
    requires act.CancelReread? || act.CancelClear? || act.CancelPublish?
    requires Sim(c, a) && CancelNext(c, act) == Some(c')
    ensures CancelNext(a, act).Some? && Sim(c', CancelNext(a, act).value)
  {
    hide StatusSim, ResponseSim, TimersSim, CallsSim;
    var pc := c.calls[act.call];
    CallInBoth(c, a, act.call);
    if act.CancelClear? { ClearSim(c.db, c.timers, a.timers, pc.rideId, true); }
    SetSim(c.db, c.calls, a.calls, act.call, if act.call in c'.calls then c'.calls[act.call] else pc);
  }

  lemma CancelCommitSim(c: State, a: State, act: Action, c': State)
    requires act.CancelCommit?
    requires Sim(c, a) && CancelNext(c, act) == Some(c') && DbEvolves(c.db, c'.db)
    ensures CancelNext(a, act).Some? && Sim(c', CancelNext(a, act).value)
  {
    hide StatusSim, ResponseSim, TimersSim, CallsSim, CancelTx, DbEvolves, FailCall;
    FailCallFrame(c, act.call);
    FailCallFrame(a, act.call);
    var pc := c.calls[act.call];
    CallInBoth(c, a, act.call);
    ExtrasStable(c, a, c'.db);
    SetSim(c'.db, c.calls, a.calls, act.call, AtCancelReread(pc.rideId));
  }

  lemma FailCallFrame(s: State, k: CallId)
    ensures FailCall(s, k) == s.(calls := s.calls - {k}, history := FailCall(s, k).history)
  {
  }

  lemma CallInBoth(c: State, a: State, k: CallId)
    requires CallsSim(c.db, c.calls, a.calls) && k in c.calls && !c.calls[k].AtCallbackGet?
    ensures k in a.calls && a.calls[k] == c.calls[k]
  {
  }

  lemma DriverPublishSim(c: State, a: State, act: Action, c': State)
    requires (act.DriverPublish? || act.ArrivedRead?) && Sim(c, a) && DriverNext(c, act) == Some(c')
    ensures DriverNext(a, act).Some? && Sim(c', DriverNext(a, act).value)
  {
    hide TimersSim, CallsSim, ResponseSim, StatusSim;
    if act.DriverPublish? { EnqueueSim(c.status, a.status, act.message); }
  }

  lemma ArrivedPublishSim(c: State, a: State, act: Action, c': State)
    requires act.ArrivedPublish? && Sim(c, a) && DriverNext(c, act) == Some(c')
    ensures DriverNext(a, act).Some? && Sim(c', DriverNext(a, act).value)
  {
    hide TimersSim, CallsSim, ResponseSim, StatusSim;
    EnqueueSim(c.status, a.status, DriverStatusMessage(c.arrivals[act.n].0, ARRIVED, c.arrivals[act.n].1));
  }

  lemma DetailsSim(c: State, a: State, act: Action, c': State)
    requires act.DetailsTake? && Sim(c, a) && DriverNext(c, act) == Some(c')
    ensures DriverNext(a, act).Some? && Sim(c', DriverNext(a, act).value)
  {
    hide TimersSim, CallsSim, ResponseSim, StatusSim;
    var m := c.rideStatus[0];
    EnqueueSim(c.status, a.status, DriverStatusMessage(m.driverId, EN_ROUTE, m.rideId));
  }

  lemma CancelBeginSim(c: State, a: State, act: Action, c': State)
    requires Sim(c, a) && act.CancelBegin? && Next(c, act) == Some(c')
    ensures Next(a, act).Some? && Sim(c', Next(a, act).value)
  {
    hide TimersSim, ResponseSim, StatusSim;
    SetSim(c.db, c.calls, a.calls, HttpCall(act.n), c'.calls[HttpCall(act.n)]);
  }

  lemma ResponseArriveSim(c: State, a: State, act: Action, c': State)
    requires Sim(c, a) && act.ResponseArrive? && Next(c, act) == Some(c')
    ensures Next(a, act).Some? && Sim(c', Next(a, act).value)
  {
    hide TimersSim, CallsSim, StatusSim;
    if c.response.queue != [] {
      assert (c.response.queue + [act.response])[1..] == c.response.queue[1..] + [act.response];
    }
  }

  // ----- timers

  /**
   What the failure-free system does while the failing one takes a step: an enabled failure-free run with the same
   commits.
   */
  ghost predicate Follows(c: State, a: State, c': State, actions: seq<Action>) {
    && FailureFree(actions) && Run(a, actions).Some? && Sim(c', Run(a, actions).value)
    && Commits(a, actions) == if c'.db != c.db then [c'.db] else []
  }

  lemma FollowsTogether(c: State, a: State, act: Action, c': State, a': State)
    requires !Faulty(act) && Next(a, act) == Some(a') && Sim(c', a') && a.db == c.db
    ensures Follows(c, a, c', [act])
  {
    hide Next, TimersSim, CallsSim, StatusSim, ResponseSim;
    OneAction(a, act, a');
  }

  lemma FollowsIdle(c: State, a: State, c': State)
    requires Sim(c', a) && c'.db == c.db
    ensures Follows(c, a, c', [])
  {
  }

  lemma TimerFireSim(c: State, a: State, act: Action, c': State) returns (actions: seq<Action>)
    requires Sim(c, a) && act.TimerFire? && Next(c, act) == Some(c') && TimerOk(c, act.id)
    ensures Follows(c, a, c', actions) && Internal(actions)
  {
    hide StatusSim, ResponseSim, Follows, Watched;
    var id := act.id;
    if id in a.timers {
      ClearSim(c.db, c.timers, a.timers, id, false);
      SetSim(c.db, c.calls, a.calls, TimerCall(id), AtCallbackGet(id));
      actions := [act];
      FollowsTogether(c, a, act, c', TimerNext(a, act).value);
    } else {
      actions := [];
      FollowsIdle(c, a, c');
    }
  }

  lemma CallbackSim(c: State, a: State, act: Action, c': State) returns (actions: seq<Action>)
    requires Sim(c, a) && act.CallbackRead? && Next(c, act) == Some(c')
    ensures Follows(c, a, c', actions) && Internal(actions)
  {
    hide Sim, Follows, Next;
    NextOfTimer(c, act);
    NextOfTimer(a, act);
    if TimerCall(act.id) in a.calls {
      CallbackShared(c, a, act, c');
      actions := [act];
      FollowsTogether(c, a, act, c', TimerNext(a, act).value);
    } else {
      CallbackSkipped(c, a, act, c');
      actions := [];
      FollowsIdle(c, a, c');
    }
  }

  lemma NextOfTimer(s: State, act: Action)
    requires act.TimerFire? || act.CallbackRead?
    ensures Next(s, act) == TimerNext(s, act)
  {
    hide TimerNext;
  }

  lemma CallbackShared(c: State, a: State, act: Action, c': State)
    requires Sim(c, a) && act.CallbackRead? && TimerNext(c, act) == Some(c') && TimerCall(act.id) in a.calls
    ensures a.db == c.db && TimerNext(a, act).Some? && Sim(c', TimerNext(a, act).value)
  {
    hide StatusSim, ResponseSim, TimersSim, FailCall, CallsSim;
    var call := TimerCall(act.id);
    assert call in c.calls && a.calls[call] == c.calls[call] by { SameCall(c, a, call); }
    FailCallFrame(c, call);
    FailCallFrame(a, call);
    SetSim(c.db, c.calls, a.calls, call, AtCancelGet(act.id, "", TIMEOUT_REASON));
  }

  lemma SameCall(c: State, a: State, k: CallId)
    requires CallsSim(c.db, c.calls, a.calls) && k in a.calls
    ensures k in c.calls && a.calls[k] == c.calls[k]
  {
  }

  lemma CallbackSkipped(c: State, a: State, act: Action, c': State)
    requires Sim(c, a) && act.CallbackRead? && TimerNext(c, act) == Some(c') && TimerCall(act.id) !in a.calls
    ensures c'.db == c.db && Sim(c', a)
  {
    hide StatusSim, ResponseSim, TimersSim, FailCall;
    FailCallFrame(c, TimerCall(act.id));
  }

  // ----- the driver-response consumer

  /**
   Taking a response up is skipped when the attempt fails or the message was finished before, and shared otherwise.
   */
  lemma ResponseTakeSim(c: State, a: State, act: Action, c': State) returns (actions: seq<Action>)
    requires Sim(c, a) && act.ResponseTake? && Next(c, act) == Some(c')
    requires ResponseOk(c.db, c.response) && DbEvolves(c.db, c'.db)
    ensures Follows(c, a, c', actions) && Internal(actions)
  {
    hide StatusSim, TimersSim, CallsSim, Follows, DbEvolves, Next, ResponseNext, ResponseSim, Sim;
    NextOfResponse(c, act);
    var clean := ResponseTake(true, act.now);
    NextOfResponse(a, clean);
    if ResponseSkipped(c, act) {
      ResponseSkippedSim(c, a, act, c');
      actions := [];
      FollowsIdle(c, a, c');
    } else {
      ResponseTakenSim(c, a, act, c');
      actions := [clean];
      FollowsTogether(c, a, clean, c', ResponseNext(a, clean).value);
    }
  }

  ghost predicate ResponseSkipped(c: State, act: Action)
    requires act.ResponseTake?
  {
    c.response.queue != [] && (c.response.commits == 1 || (!act.ok && !IgnoredResponse(c.response.queue[0])))
  }

  lemma ResponseSkippedSim(c: State, a: State, act: Action, c': State)
    requires Sim(c, a) && act.ResponseTake? && ResponseNext(c, act) == Some(c')
    requires ResponseOk(c.db, c.response) && ResponseSkipped(c, act)
    ensures c'.db == c.db && Sim(c', a)
  {
    hide StatusSim, TimersSim, CallsSim;
  }

  lemma ResponseTakenSim(c: State, a: State, act: Action, c': State)
    requires Sim(c, a) && act.ResponseTake? && ResponseNext(c, act) == Some(c')
    requires ResponseOk(c.db, c.response) && !ResponseSkipped(c, act) && DbEvolves(c.db, c'.db)
    ensures a.db == c.db
    ensures var a' := ResponseNext(a, ResponseTake(true, act.now)); a'.Some? && Sim(c', a'.value)
  {
    hide StatusSim, TimersSim, CallsSim, DbEvolves, ResponseNext;
    TakenResult(c, act, c');
    ExtrasStable(c, a, c'.db);
    TakenAgain(c, a, act, c');
  }

  lemma TakenResult(c: State, act: Action, c': State)
    requires act.ResponseTake? && ResponseNext(c, act) == Some(c') && !ResponseSkipped(c, act)
              && ResponseOk(c.db, c.response)
    ensures c.response.pc.ResponseIdle? && c.response.queue != [] && c.response.commits == 0
    ensures c' == c.(db := c'.db, response := c'.response)
    ensures c'.response.pc.ResponseIdle? ==> c'.response.commits == 0
  {
    hide MatchTx;
  }

  lemma TakenAgain(c: State, a: State, act: Action, c': State)
    requires act.ResponseTake? && ResponseNext(c, act) == Some(c') && !ResponseSkipped(c, act)
    requires a.db == c.db && a.response == c.response && c.response.queue != [] && c.response.commits == 0
    ensures ResponseNext(a, ResponseTake(true, act.now)) == Some(a.(db := c'.db, response := c'.response))
  {
    hide MatchTx;
  }

  lemma NextOfResponse(s: State, act: Action)
    requires act.ResponseTake? || act.ResponseReread? || act.ResponseClear? || act.ResponsePublish?
    ensures Next(s, act) == ResponseNext(s, act)
  {
    hide ResponseNext;
  }

  lemma ResponseTogether(c: State, a: State, act: Action, c': State)
    requires (act.ResponseReread? && act.ok) || act.ResponseClear? || act.ResponsePublish?
    requires Sim(c, a) && ResponseNext(c, act) == Some(c') && ResponseOk(c.db, c.response)
    ensures ResponseNext(a, act).Some? && Sim(c', ResponseNext(a, act).value)
  {
    hide StatusSim, TimersSim, CallsSim;
    if act.ResponseClear? { ClearSim(c.db, c.timers, a.timers, c.response.queue[0].rideId, true); }
  }

  /** When the read after the commit fails, the failure-free system finishes the message without its publish. */
  lemma ResponseRereadSim(c: State, a: State, act: Action, c': State) returns (actions: seq<Action>)
    requires Sim(c, a) && act.ResponseReread? && !act.ok && Next(c, act) == Some(c') && ResponseOk(c.db, c.response)
    ensures Follows(c, a, c', actions) && Internal(actions)
  {
    hide StatusSim, TimersSim, CallsSim, Next;
    NextOfResponse(c, act);
    var id := c.response.queue[0].rideId;
    NextOfResponse(a, ResponseReread(true));
    var a1 := ResponseNext(a, ResponseReread(true)).value;
    NextOfResponse(a1, ResponseClear);
    var a2 := ResponseNext(a1, ResponseClear).value;
    NextOfResponse(a2, ResponsePublish(false));
    var a3 := ResponseNext(a2, ResponsePublish(false)).value;
    ClearSim(c.db, c.timers, a.timers, id, true);
    actions := [ResponseReread(true), ResponseClear, ResponsePublish(false)];
    assert actions[1..] == [ResponseClear, ResponsePublish(false)] && actions[1..][1..] == [ResponsePublish(false)];
    OneAction(a2, ResponsePublish(false), a3);
  }

  // ----- the driver-status consumer

  lemma NextOfStatus(s: State, act: Action)
    requires act.StatusTake? || act.StatusCommit? || act.StatusReread? || act.StatusPublish?
    ensures Next(s, act) == StatusNext(s, act)
  {
    hide StatusNext;
  }

  /** The failure-free system reads a message when the other acks it unfinished, and otherwise waits. */
  ghost predicate StatusShared(c: State, c': State) {
    c.status.queue != [] && c.status.commits == 0 && c'.status == StatusConsumer(c.status.queue[1..], StatusIdle, 0)
  }

  lemma StatusTakeSim(c: State, a: State, act: Action, c': State) returns (actions: seq<Action>)
    requires Sim(c, a) && act.StatusTake? && Next(c, act) == Some(c') && StatusOk(c.db, c.status)
    ensures Follows(c, a, c', actions) && Internal(actions)
  {
    hide StatusSim, TimersSim, CallsSim, ResponseSim, Follows, Next, StatusNext, Sim, StatusOk;
    NextOfStatus(c, act);
    var clean := StatusTake(true, act.now);
    NextOfStatus(a, clean);
    if StatusShared(c, c') {
      StatusSharedSim(c, a, act, c');
      actions := [clean];
      FollowsTogether(c, a, clean, c', StatusNext(a, clean).value);
    } else {
      StatusWaitSim(c, a, act, c');
      actions := [];
      FollowsIdle(c, a, c');
    }
  }

  /** Nothing is to be written for this message. */
  ghost predicate AckedOnRead(db: Db, m: DriverStatusMessage) {
    m.rideId == "" || m.rideId !in db.rides || Decide(m.status, db.rides[m.rideId].status).None?
  }

  /** Taking a message up acks it, keeps it for writing, or leaves it at the head. */
  lemma TakeOutcome(s: State, act: Action, s': State)
    requires act.StatusTake? && StatusNext(s, act) == Some(s')
    ensures s' == s.(status := s'.status, history := s'.history)
    ensures s.status.pc.StatusIdle? && s.status.queue != []
    ensures || (s'.status == StatusConsumer(s.status.queue[1..], StatusIdle, 0) && AckedOnRead(s.db, s.status.queue[0]))
            || s'.status == s.status
            || (s'.status == s.status.(pc := s'.status.pc) && s'.status.pc.AtStatusWrite?
                && !AckedOnRead(s.db, s.status.queue[0]))
  {
    hide Decide, FinalFare;
  }

  lemma TakeAcks(s: State, now: int)
    requires s.status.pc.StatusIdle? && s.status.queue != [] && AckedOnRead(s.db, s.status.queue[0])
    ensures var s' := StatusNext(s, StatusTake(true, now));
            s'.Some? && s'.value == s.(status := StatusConsumer(s.status.queue[1..], StatusIdle, 0),
                history := s'.value.history)
  {
    hide Decide, FinalFare;
  }

  lemma StatusSharedSim(c: State, a: State, act: Action, c': State)
    requires Sim(c, a) && act.StatusTake? && StatusNext(c, act) == Some(c') && StatusShared(c, c')
    ensures a.db == c.db
    ensures var a' := StatusNext(a, StatusTake(true, act.now)); a'.Some? && Sim(c', a'.value)
  {
    hide TimersSim, CallsSim, ResponseSim, StatusNext, AckedOnRead;
    TakeOutcome(c, act, c');
    TakeAcks(a, act.now);
  }

  lemma StatusWaitSim(c: State, a: State, act: Action, c': State)
    requires Sim(c, a) && act.StatusTake? && StatusNext(c, act) == Some(c') && !StatusShared(c, c')
    requires StatusOk(c.db, c.status)
    ensures c'.db == c.db && Sim(c', a)
  {
    hide TimersSim, CallsSim, ResponseSim, StatusNext, Decide;
    TakeOutcome(c, act, c');
  }

  /** The failure-free system reads the row only now, and decides the same: nobody else has moved the ride there. */
  lemma StatusCommitSim(c: State, a: State, act: Action, c': State) returns (actions: seq<Action>)
    requires Sim(c, a) && act.StatusCommit? && Next(c, act) == Some(c')
    requires StatusOk(c.db, c.status) && FareOk(c.db, c.status) && DbEvolves(c.db, c'.db)
    ensures Follows(c, a, c', actions) && Internal(actions)
  {
    hide TimersSim, CallsSim, ResponseSim, StatusSim, Follows, Next, StatusNext, DbEvolves, StatusOk, FareOk, Sim;
    NextOfStatus(c, act);
    CommitFrame(c, a, act, c');
    if !act.ok {
      actions := [];
      FollowsIdle(c, a, c');
    } else {
      var take := StatusTake(true, c.status.pc.readAt);
      NextOfStatus(a, take);
      TakeAgain(c, a);
      var a1 := StatusNext(a, take).value;
      NextOfStatus(a1, act);
      WriteTogether(c, a, act, c', a1);
      actions := [take, act];
      FollowsTwo(c, a, c', take, a1, act, StatusNext(a1, act).value);
    }
  }

  lemma CommitFrame(c: State, a: State, act: Action, c': State)
    requires Sim(c, a) && act.StatusCommit? && StatusNext(c, act) == Some(c') && StatusOk(c.db, c.status)
    ensures c.status.pc.AtStatusWrite? && a.db == c.db && a.status == StatusConsumer(c.status.queue, StatusIdle, 0)
    ensures !act.ok ==> c'.db == c.db && Sim(c', a)
  {
    hide TimersSim, CallsSim, ResponseSim, StatusTx, Decide;
  }

  lemma WriteTogether(c: State, a: State, act: Action, c': State, a1: State)
    requires Sim(c, a) && act.StatusCommit? && act.ok && StatusNext(c, act) == Some(c') && DbEvolves(c.db, c'.db)
    requires StatusOk(c.db, c.status) && a1 == a.(status := c.status, history := a1.history)
    ensures StatusNext(a1, act).Some? && Sim(c', StatusNext(a1, act).value)
  {
    hide TimersSim, CallsSim, ResponseSim, StatusTx, Decide, DbEvolves;
    ExtrasStable(c, a, c'.db);
    WriteFrame(c, act, c');
    WriteFrame(a1, act, StatusNext(a1, act).value);
  }

  /** A successful write changes the database and the consumer only. */
  lemma WriteFrame(s: State, act: Action, s': State)
    requires act.StatusCommit? && act.ok && StatusNext(s, act) == Some(s') && s.status.pc.AtStatusWrite?
              && StatusOk(s.db, s.status)
    ensures s' == s.(db := s'.db, status := StatusConsumer(s.status.queue, AtStatusReread, 1))
  {
    hide WithStatus, Decide;
  }

  lemma TakeAgain(c: State, a: State)
    requires c.status.pc.AtStatusWrite? && StatusOk(c.db, c.status) && FareOk(c.db, c.status)
    requires a.db == c.db && a.status == StatusConsumer(c.status.queue, StatusIdle, 0)
    ensures var a' := StatusNext(a, StatusTake(true, c.status.pc.readAt));
            a'.Some? && a'.value == a.(status := c.status, history := a'.value.history)
  {
    hide FinalFare, Decide;
  }

  lemma FollowsTwo(c: State, a: State, c': State, first: Action, a1: State, second: Action, a2: State)
    requires !Faulty(first) && !Faulty(second) && Next(a, first) == Some(a1) && Next(a1, second) == Some(a2)
    requires a1.db == a.db == c.db && Sim(c', a2)
    ensures Follows(c, a, c', [first, second])
  {
    hide Next, TimersSim, CallsSim, StatusSim, ResponseSim;
    assert [first, second][1..] == [second];
    OneAction(a1, second, a2);
  }

  lemma StatusTogether(c: State, a: State, act: Action, c': State)
    requires (act.StatusReread? && act.ok) || act.StatusPublish?
    requires Sim(c, a) && StatusNext(c, act) == Some(c') && StatusOk(c.db, c.status)
    ensures StatusNext(a, act).Some? && Sim(c', StatusNext(a, act).value)
  {
    hide TimersSim, CallsSim, ResponseSim, Decide, FinalFare;
  }

  lemma StatusRereadSim(c: State, a: State, act: Action, c': State) returns (actions: seq<Action>)
    requires Sim(c, a) && act.StatusReread? && !act.ok && Next(c, act) == Some(c') && StatusOk(c.db, c.status)
    ensures Follows(c, a, c', actions) && Internal(actions)
  {
    hide TimersSim, CallsSim, ResponseSim, Next, Decide, FinalFare, Follows;
    NextOfStatus(c, act);
    NextOfStatus(a, StatusReread(true));
    var a1 := StatusNext(a, StatusReread(true)).value;
    NextOfStatus(a1, StatusPublish(false));
    var a2 := StatusNext(a1, StatusPublish(false)).value;
    actions := [StatusReread(true), StatusPublish(false)];
    FollowsTwo(c, a, c', StatusReread(true), a1, StatusPublish(false), a2);
  }

  // ----- whole runs

  /** Actions that the two systems take together. */
  predicate Shared(act: Action) {
    match act
    case TimerFire(_) => false
    case CallbackRead(_, _) => false
    case ResponseTake(_, _) => false
    case ResponseReread(ok) => ok
    case StatusTake(_, _) => false
    case StatusCommit(_, _) => false
    case StatusReread(ok) => ok
    case _ => true
  }

  lemma SharedSim(c: State, a: State, act: Action, c': State)
    requires Inv(c) && Sim(c, a) && Next(c, act) == Some(c') && Shared(act) && DbEvolves(c.db, c'.db)
    ensures Next(a, act).Some? && Sim(c', Next(a, act).value)
  {
    hide CreateNext, TimerNext, CancelNext, ResponseNext, StatusNext, DriverNext, Sim;
    hide DbInv, CallsInv, StatusOk, FareOk, ResponseOk, MessagesInv, TimersInv, OrderInv, DbEvolves;
    if act.CreateCommit? || act.CreatePublish? || act.CreateArm? { CreateSim(c, a, act, c'); }
    else if act.CancelBegin? { CancelBeginSim(c, a, act, c'); }
    else if act.CancelRead? { CancelReadSim(c, a, act, c'); }
    else if act.CancelCommit? { CancelCommitSim(c, a, act, c'); }
    else if act.CancelReread? || act.CancelClear? || act.CancelPublish? { CancelFinishSim(c, a, act, c'); }
    else if act.ResponseArrive? { ResponseArriveSim(c, a, act, c'); }
    else if act.ResponseReread? || act.ResponseClear? || act.ResponsePublish? { ResponseTogether(c, a, act, c'); }
    else if act.StatusReread? || act.StatusPublish? { StatusTogether(c, a, act, c'); }
    else if act.DetailsTake? { DetailsSim(c, a, act, c'); }
    else if act.ArrivedPublish? { ArrivedPublishSim(c, a, act, c'); }
    else { DriverPublishSim(c, a, act, c'); }
  }

  /** One step of the system that may fail is matched by the one that does not. */
  lemma StepSim(c: State, a: State, act: Action, c': State) returns (actions: seq<Action>)
    requires Inv(c) && Sim(c, a) && Next(c, act) == Some(c')
    ensures Follows(c, a, c', actions)
    ensures Inputs(actions) == if Input(act) then [act] else []
  {
    hide Next, Follows, DbInv, CallsInv, StatusOk, FareOk, ResponseOk, MessagesInv, TimerOk, OrderInv, CallOk;
    hide StatusSim, ResponseSim, TimersSim, CallsSim;
    NextEvolves(c, act, c');
    if Shared(act) {
      SharedSim(c, a, act, c');
      actions := [act];
      FollowsTogether(c, a, act, c', Next(a, act).value);
      assert [act][1..] == [];
    } else {
      match act
      case TimerFire(_) => actions := TimerFireSim(c, a, act, c');
      case CallbackRead(_, _) => actions := CallbackSim(c, a, act, c');
      case ResponseTake(_, _) => actions := ResponseTakeSim(c, a, act, c');
      case ResponseReread(_) => actions := ResponseRereadSim(c, a, act, c');
      case StatusTake(_, _) => actions := StatusTakeSim(c, a, act, c');
      case StatusCommit(_, _) => actions := StatusCommitSim(c, a, act, c');
      case StatusReread(_) => actions := StatusRereadSim(c, a, act, c');
    }
    if !Shared(act) { InputsOfInternal(actions); }
  }

  lemma {:induction false} RunSim(c: State, a: State, run: seq<Action>) returns (clean: seq<Action>)
    requires Inv(c) && Sim(c, a) && Run(c, run).Some?
    ensures FailureFree(clean) && Run(a, clean).Some? && Sim(Run(c, run).value, Run(a, clean).value)
    ensures Commits(a, clean) == Commits(c, run) && Inputs(clean) == Inputs(run)
    decreases |run|
  {
    hide Next, Inv, StatusSim, ResponseSim, TimersSim, CallsSim;
    if run == [] {
      clean := [];
    } else {
      var c' := Next(c, run[0]).value;
      NextKeepsInv(c, run[0], c');
      var first := StepSim(c, a, run[0], c');
      var a' := Run(a, first).value;
      var rest := RunSim(c', a', run[1..]);
      clean := first + rest;
      RunAppend(a, first, rest);
      CommitsAppend(a, first, rest);
      InputsAppend(first, rest);
    }
  }

  /** The messages of a queue on whose behalf nothing has been committed, or whose first attempt is still going on. */
  function Unfinished<Message>(queue: seq<Message>, idle: bool, commits: nat): seq<Message> {
    if idle && commits > 0 && queue != [] then queue[1..] else queue
  }

  lemma SameUnfinished(c: State, a: State)
    requires Sim(c, a)
    ensures a.status.queue == Unfinished(c.status.queue, c.status.pc.StatusIdle?, c.status.commits)
    ensures a.response.queue == Unfinished(c.response.queue, c.response.pc.ResponseIdle?, c.response.commits)
  {
  }

  /**
   Whatever fails and is redelivered, some run without failing attempts receives the same requests and messages in the
   same order, commits the same rows and events in the same order, and has left the same messages to handle, but for one
   already committed: nothing is lost, and nothing done twice.
   */
  lemma RedeliveryTransparent(run: seq<Action>) returns (clean: seq<Action>)
    requires Run(Init(), run).Some?
    ensures FailureFree(clean) && Run(Init(), clean).Some?
    ensures Inputs(clean) == Inputs(run)
    ensures Commits(Init(), clean) == Commits(Init(), run)
    ensures var c, a := Run(Init(), run).value, Run(Init(), clean).value;
            && a.db == c.db && a.rideStatus == c.rideStatus
            && a.status.queue == Unfinished(c.status.queue, c.status.pc.StatusIdle?, c.status.commits)
            && a.response.queue == Unfinished(c.response.queue, c.response.pc.ResponseIdle?, c.response.commits)
  {
    hide Next;
    InitInv();
    clean := RunSim(Init(), Init(), run);
    SameUnfinished(Run(Init(), run).value, Run(Init(), clean).value);
  }
}
