/** Runs of the lifecycle machine in which one actor goes on uninterrupted. */
module LifecycleRuns {
  import opened Prelude
  import opened Fare
  import opened RideStore
  import opened Lifecycle

  /** The last action of a run, taken in the state its others lead to. */
  lemma {:induction false} RunLast(s: State, actions: seq<Action>)
    requires actions != [] && Run(s, actions).Some?
    ensures var front := Run(s, actions[..|actions| - 1]);
            front.Some? && Next(front.value, actions[|actions| - 1]) == Run(s, actions)
    decreases |actions|
  {
    hide Next;
    var front, last := actions[..|actions| - 1], actions[|actions| - 1];
    if front != [] {
      RunLast(Next(s, actions[0]).value, actions[1..]);
      assert front[1..] == actions[1..][..|actions| - 2];
    }
  }

  lemma Extend(s: State, actions: seq<Action>, t: State, a: Action, t': State)
    requires Run(s, actions) == Some(t) && Next(t, a) == Some(t')
    ensures Run(s, actions + [a]) == Some(t')
  {
    hide Next;
    RunAppend(s, actions, [a]);
    assert [a][1..] == [];
    assert Run(t', []) == Some(t');
  }

  predicate CreateAction(a: Action, id: string) {
    (a.CreateCommit? || a.CreatePublish? || a.CreateArm?) && a.id == id
  }

  lemma OneStep(s: State, a: Action, t: State)
    requires Next(s, a) == Some(t)
    ensures Run(s, [a]) == Some(t)
  {
    hide Next;
    Extend(s, [], s, a, t);
    assert [] + [a] == [a];
  }

  predicate ResponseAction(a: Action) {
    a.ResponseTake? || a.ResponseReread? || a.ResponseClear? || a.ResponsePublish?
  }

  predicate StatusAction(a: Action) {
    a.StatusTake? || a.StatusCommit? || a.StatusReread? || a.StatusPublish?
  }

  predicate CancelAction(a: Action, call: CallId) {
    (a.CancelRead? || a.CancelCommit? || a.CancelReread? || a.CancelClear? || a.CancelPublish?) && a.call == call
  }

  // ----- uninterrupted handlers as runs

  lemma CreateEnabled(s: State, a: Action)
    requires a.CreateCommit? && a.id != "" && a.id !in s.db.rides && a.passengerId != ""
    requires CalculateFareEstimate(a.rideType, a.distanceKm).Ok?
    ensures CreateNext(s, a).Some?
    ensures CreateNext(s, a).value.db
         == CreateTx(s.db, a.id, NewRide(a.passengerId, a.rideType, a.distanceKm,
                                         CalculateFareEstimate(a.rideType, a.distanceKm).value.fare))
  {
    hide CalculateFareEstimate;
  }

  /** The tail of HandleDriverMatched after the commit: read again, clear the timer, publish, ack. */
  lemma FinishResponse(s: State, sent: bool)
    requires s.response.queue != [] && s.response.pc.AtResponseReread? && s.response.queue[0].rideId in s.db.rides
    ensures var id := s.response.queue[0].rideId;
            Run(s, [ResponseReread(true), ResponseClear, ResponsePublish(sent)])
            == Some(AckResponse(Announce(s.(timers := s.timers - {id}), id, s.db.rides[id], sent)))
  {
    var s1 := ResponseNext(s, ResponseReread(true)).value;
    var s2 := ResponseNext(s1, ResponseClear).value;
    var s3 := ResponseNext(s2, ResponsePublish(sent)).value;
    OneStep(s, ResponseReread(true), s1);
    Extend(s, [ResponseReread(true)], s1, ResponseClear, s2);
    Extend(s, [ResponseReread(true), ResponseClear], s2, ResponsePublish(sent), s3);
  }

  /** The tail of HandleDriverStatus after the commit: read again, publish, ack. */
  lemma FinishStatus(s: State, sent: bool)
    requires s.status.queue != [] && s.status.pc.AtStatusReread? && s.status.queue[0].rideId in s.db.rides
    ensures var id := s.status.queue[0].rideId;
            Run(s, [StatusReread(true), StatusPublish(sent)]) == Some(AckStatus(Announce(s, id, s.db.rides[id], sent)))
  {
    var s1 := StatusNext(s, StatusReread(true)).value;
    var s2 := StatusNext(s1, StatusPublish(sent)).value;
    OneStep(s, StatusReread(true), s1);
    Extend(s, [StatusReread(true)], s1, StatusPublish(sent), s2);
  }

  /** The tail of cancelRide after the commit: read again, clear the timer, publish. */
  lemma FinishCancel(s: State, call: CallId, sent: bool)
    requires call in s.calls && s.calls[call].AtCancelReread? && s.calls[call].rideId in s.db.rides
    ensures var id := s.calls[call].rideId;
            Run(s, [CancelReread(call, true), CancelClear(call), CancelPublish(call, sent)])
            == Some(EndCall(Announce(s.(timers := s.timers - {id}), id, s.db.rides[id], sent), call))
  {
    var s1 := CancelNext(s, CancelReread(call, true)).value;
    var s2 := CancelNext(s1, CancelClear(call)).value;
    var s3 := CancelNext(s2, CancelPublish(call, sent)).value;
    OneStep(s, CancelReread(call, true), s1);
    Extend(s, [CancelReread(call, true)], s1, CancelClear(call), s2);
    Extend(s, [CancelReread(call, true), CancelClear(call)], s2, CancelPublish(call, sent), s3);
    assert s3.calls == s.calls - {call};
  }

  lemma ResponseTaken(s: State, ok: bool, now: int)
    requires s.response.pc.ResponseIdle? && s.response.queue != [] && !IgnoredResponse(s.response.queue[0])
    ensures var m := s.response.queue[0];
            Run(s, [ResponseTake(ok, now)])
            == Some(if !ok then NackResponse(s)
                    else match MatchTx(s.db, m.rideId, m.driverId, now)
                         case Err(_) => AckResponse(s)
                         case Ok(db) => s.(db := db, response := ResponseConsumer(s.response.queue, AtResponseReread,
                             s.response.commits + 1)))
  {
    hide MatchTx;
    OneStep(s, ResponseTake(ok, now), ResponseNext(s, ResponseTake(ok, now)).value);
  }

  /** The report asks for no transition of this ride. */
  predicate Ignored(db: Db, message: DriverStatusMessage) {
    message.rideId == "" || message.rideId !in db.rides || Decide(message.status, db.rides[message.rideId].status).None?
  }

  /** Reading the row decides: acknowledge, return with an error, or go on to write. */
  lemma StatusTaken(s: State, ok: bool, now: int) returns (t: State)
    requires s.status.pc.StatusIdle? && s.status.queue != []
    ensures Run(s, [StatusTake(ok, now)]) == Some(t)
    ensures t.db == s.db && t.timers == s.timers && t.rideStatus == s.rideStatus
    ensures var m := s.status.queue[0];
            if m.rideId != "" && !ok then t.status == s.status.(pc := StatusIdle)
            else if Ignored(s.db, m) then t.status == StatusConsumer(s.status.queue[1..], StatusIdle, 0)
            else
              var newStatus, fare := Decide(m.status, s.db.rides[m.rideId].status).value,
                  FinalFare(s.db.rides[m.rideId], now);
              if newStatus != Completed then t.status == s.status.(pc := AtStatusWrite(newStatus, None, now))
              else if fare.Err? then t.status == s.status.(pc := StatusIdle)
              else t.status == s.status.(pc := AtStatusWrite(newStatus, Some(fare.value), now))
  {
    hide FinalFare, Decide, Run;
    t := StatusNext(s, StatusTake(ok, now)).value;
    OneStep(s, StatusTake(ok, now), t);
  }

  lemma StatusWritten(s: State, ok: bool, now: int)
    requires s.status.queue != [] && s.status.pc.AtStatusWrite?
    ensures var m, pc := s.status.queue[0], s.status.pc;
            Run(s, [StatusCommit(ok, now)])
            == Some(if !ok then NackStatus(s)
                    else match StatusTx(s.db, m.rideId, pc.newStatus, m.driverId, pc.fare, now)
                         case Err(_) => NackStatus(s)
                         case Ok(db) => s.(db := db, status := StatusConsumer(s.status.queue, AtStatusReread,
                             s.status.commits + 1)))
  {
    hide StatusTx;
    OneStep(s, StatusCommit(ok, now), StatusNext(s, StatusCommit(ok, now)).value);
  }

  /** Reading the ride decides whether a cancellation goes on. */
  lemma CancelTaken(s: State, call: CallId, ok: bool) returns (t: State)
    requires call in s.calls && s.calls[call].AtCancelGet?
    ensures Run(s, [CancelRead(call, ok)]) == Some(t)
    ensures t.db == s.db && t.timers == s.timers && t.rideStatus == s.rideStatus
    ensures var pc := s.calls[call];
            if ok && pc.rideId in s.db.rides
               && (pc.passengerId == "" || s.db.rides[pc.rideId].passengerId == pc.passengerId)
            then
              var ride := s.db.rides[pc.rideId];
              && call in t.calls
              && t.calls[call] == AtCancelWrite(pc.rideId, ride.status,
                                                CalculateRefund(ride.status, ride.estimatedFare), pc.reason)
            else call !in t.calls
  {
    hide CalculateRefund, Run;
    t := CancelNext(s, CancelRead(call, ok)).value;
    OneStep(s, CancelRead(call, ok), t);
  }

  lemma CancelWritten(s: State, call: CallId, ok: bool, now: int)
    requires call in s.calls && s.calls[call].AtCancelWrite?
    ensures var pc := s.calls[call];
            Run(s, [CancelCommit(call, ok, now)])
            == Some(if !ok then FailCall(s, call)
                    else match CancelTx(s.db, pc.rideId, pc.reason, pc.refund, now)
                         case Err(_) => EndCall(s, call)
                         case Ok(db) => s.(db := db, calls := s.calls[call := AtCancelReread(pc.rideId)]))
  {
    hide CancelTx, FailCall;
    OneStep(s, CancelCommit(call, ok, now), CancelNext(s, CancelCommit(call, ok, now)).value);
  }

  lemma RereadsFail(s: State, call: CallId)
    ensures s.response.queue != [] && s.response.pc.AtResponseReread? ==>
              Run(s, [ResponseReread(false)]) == Some(NackResponse(s))
    ensures s.status.queue != [] && s.status.pc.AtStatusReread? ==> Run(s, [StatusReread(false)]) == Some(NackStatus(s))
    ensures call in s.calls && s.calls[call].AtCancelReread? ==>
              Run(s, [CancelReread(call, false)]) == Some(EndCall(s, call))
  {
    if s.response.queue != [] && s.response.pc.AtResponseReread? { OneStep(s, ResponseReread(false), NackResponse(s)); }
    if s.status.queue != [] && s.status.pc.AtStatusReread? { OneStep(s, StatusReread(false), NackStatus(s)); }
    if call in s.calls && s.calls[call].AtCancelReread? { OneStep(s, CancelReread(call, false), EndCall(s, call)); }
  }

  /** Whether a repository call gets past its lock and, if there is something to commit, commits it. */
  predicate Reaches(fault: Fault, tx: Result<Db, RepoError>) {
    fault != AtBegin && fault != AtSelect && (tx.Err? || fault == AtReread || fault == NoFault)
  }

  lemma TxKeepsRide(db: Db, id: string, driverId: string, reason: string, refund: real, status: Status,
                    fare: Option<real>, now: int)
    ensures MatchTx(db, id, driverId, now).Ok? ==> id in MatchTx(db, id, driverId, now).value.rides
    ensures CancelTx(db, id, reason, refund, now).Ok? ==> id in CancelTx(db, id, reason, refund, now).value.rides
    ensures StatusTx(db, id, status, driverId, fare, now).Ok? ==>
              id in StatusTx(db, id, status, driverId, fare, now).value.rides
    ensures MatchTx(db, id, driverId, now) != Err(Unavailable)
              && CancelTx(db, id, reason, refund, now) != Err(Unavailable)
  {
    hide WithStatus;
  }

  lemma AnnounceFrame(s: State, id: string, ride: Ride, sent: bool)
    ensures Announce(s, id, ride, sent)
         == s.(rideStatus := if sent then s.rideStatus + [StatusMessageFor(id, ride)] else s.rideStatus)
  {
  }

  /** HandleDriverMatched on a live message: what its repository call does decides what the consumer does. */
  lemma MatchRun(s: State, now: int, fault: Fault, sent: bool) returns (actions: seq<Action>)
    requires s.response.pc.ResponseIdle? && s.response.queue != [] && !IgnoredResponse(s.response.queue[0])
    ensures Run(s, actions).Some? && forall a <- actions :: ResponseAction(a)
    ensures var m, t := s.response.queue[0], Run(s, actions).value;
            var (db, result) := CallEffect(s.db, m.rideId, MatchTx(s.db, m.rideId, m.driverId, now), fault);
            && t.db == db && t.response.pc.ResponseIdle?
            && t.timers == (if result.Ok? then s.timers - {m.rideId} else s.timers)
            && t.rideStatus == (if result.Ok? && sent then s.rideStatus + [StatusMessageFor(m.rideId, result.value)]
                else s.rideStatus)
            && t.response.queue == if result == Err(Unavailable) then s.response.queue else s.response.queue[1..]
  {
    hide Run, Next, MatchTx, Announce, StatusMessageFor, IgnoredResponse, Lookup;
    var m := s.response.queue[0];
    var tx := MatchTx(s.db, m.rideId, m.driverId, now);
    var reached := Reaches(fault, tx);
    var first := [ResponseTake(reached, now)];
    ResponseTaken(s, reached, now);
    TxKeepsRide(s.db, m.rideId, m.driverId, "", 0.0, Requested, None, now);
    var rest := [];
    var s1 := Run(s, first).value;
    if reached && tx.Ok? {
      rest := if fault == AtReread then [ResponseReread(false)]
          else [ResponseReread(true), ResponseClear, ResponsePublish(sent)];
      RereadsFail(s1, HttpCall(0));
      FinishResponse(s1, sent);
      AnnounceFrame(s1.(timers := s1.timers - {m.rideId}), m.rideId, s1.db.rides[m.rideId], sent);
      RunAppend(s, first, rest);
    }
    assert first + [] == first;
    actions := first + rest;
  }

  /** The second half of HandleDriverStatus, from the decision to the ack or nack. */
  lemma WriteRun(s: State, now: int, fault: Fault, sent: bool) returns (actions: seq<Action>)
    requires s.status.queue != [] && s.status.pc.AtStatusWrite?
    ensures Run(s, actions).Some? && forall a <- actions :: StatusAction(a)
    ensures var m, pc, t := s.status.queue[0], s.status.pc, Run(s, actions).value;
            var (db, result) := CallEffect(s.db, m.rideId,
                StatusTx(s.db, m.rideId, pc.newStatus, m.driverId, pc.fare, now), fault);
            && t.db == db && t.status.pc.StatusIdle? && t.timers == s.timers
            && t.rideStatus == (if result.Ok? && sent then s.rideStatus + [StatusMessageFor(m.rideId, result.value)]
                else s.rideStatus)
            && t.status.queue == if result.Err? then s.status.queue else s.status.queue[1..]
  {
    hide Run, Next, StatusTx, Announce, StatusMessageFor;
    var m, pc := s.status.queue[0], s.status.pc;
    var tx := StatusTx(s.db, m.rideId, pc.newStatus, m.driverId, pc.fare, now);
    var reached := Reaches(fault, tx);
    var first := [StatusCommit(reached, now)];
    StatusWritten(s, reached, now);
    TxKeepsRide(s.db, m.rideId, m.driverId, "", 0.0, pc.newStatus, pc.fare, now);
    var rest := [];
    var s1 := Run(s, first).value;
    if reached && tx.Ok? {
      rest := if fault == AtReread then [StatusReread(false)] else [StatusReread(true), StatusPublish(sent)];
      RereadsFail(s1, HttpCall(0));
      FinishStatus(s1, sent);
      AnnounceFrame(s1, m.rideId, s1.db.rides[m.rideId], sent);
      RunAppend(s, first, rest);
    }
    assert first + [] == first;
    actions := first + rest;
  }

  /** The second half of cancelRide, from the refund to the end of the call. */
  lemma CancelRun(s: State, call: CallId, now: int, fault: Fault, sent: bool) returns (actions: seq<Action>)
    requires call in s.calls && s.calls[call].AtCancelWrite?
    ensures Run(s, actions).Some? && forall a <- actions :: CancelAction(a, call)
    ensures var pc, t := s.calls[call], Run(s, actions).value;
            var (db, result) := CallEffect(s.db, pc.rideId, CancelTx(s.db, pc.rideId, pc.reason, pc.refund, now),
                fault);
            && t.db == db && t.calls == s.calls - {call}
            && t.timers == (if result.Ok? then s.timers - {pc.rideId} else s.timers)
            && t.rideStatus == if result.Ok? && sent then s.rideStatus + [StatusMessageFor(pc.rideId, result.value)]
                else s.rideStatus
  {
    hide Run, Next, CancelTx, Announce;
    var pc := s.calls[call];
    var tx := CancelTx(s.db, pc.rideId, pc.reason, pc.refund, now);
    var reached := Reaches(fault, tx);
    var first := [CancelCommit(call, reached, now)];
    CancelWritten(s, call, reached, now);
    TxKeepsRide(s.db, pc.rideId, "", pc.reason, pc.refund, Requested, None, now);
    var rest := [];
    var s1 := Run(s, first).value;
    if reached && tx.Ok? {
      assert s1.calls - {call} == s.calls - {call};
      rest := if fault == AtReread then [CancelReread(call, false)]
          else [CancelReread(call, true), CancelClear(call), CancelPublish(call, sent)];
      RereadsFail(s1, call);
      FinishCancel(s1, call, sent);
      AnnounceFrame(s1.(timers := s1.timers - {pc.rideId}), pc.rideId, s1.db.rides[pc.rideId], sent);
      RunAppend(s, first, rest);
    }
    assert first + [] == first;
    actions := first + rest;
  }

  /** CreateRide from its insert on, uninterrupted. A failed publish returns before the timer is armed. */
  lemma CreateRun(s: State, a: Action, id: string, sent: bool) returns (actions: seq<Action>)
    requires a.CreateCommit? && a.id == id && CreateNext(s, a).Some?
    ensures Run(s, actions).Some? && forall b <- actions :: CreateAction(b, id)
    ensures var s1, t := CreateNext(s, a).value, Run(s, actions).value;
            && t.db == s1.db && t.rideStatus == s.rideStatus
            && t.timers == (if sent then s.timers[id := true] else s.timers)
            && t.history.created == (if sent then s.history.created + {id} else s.history.created)
  {
    hide CalculateFareEstimate, CreateTx;
    var s1 := CreateNext(s, a).value;
    OneStep(s, a, s1);
    var s2 := CreateNext(s1, CreatePublish(id, sent)).value;
    Extend(s, [a], s1, CreatePublish(id, sent), s2);
    actions := [a] + [CreatePublish(id, sent)];
    if sent {
      Extend(s, actions, s2, CreateArm(id), CreateNext(s2, CreateArm(id)).value);
      actions := actions + [CreateArm(id)];
    }
  }
}
