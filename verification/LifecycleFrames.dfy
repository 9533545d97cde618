/** What an action leaves alone: each actor changes its own part of the state and the tables and queues it shares. */
module LifecycleFrames {
  import opened Prelude
  import opened RideStore
  import opened Lifecycle
  import opened LifecycleRuns

  // ----- the driver-response consumer

  ghost predicate ResponseTouched(s: State, a: Action, s': State) {
    && s' == s.(db := s'.db, timers := s'.timers, response := s'.response, rideStatus := s'.rideStatus)
    && (!a.ResponseTake? ==> s'.db == s.db)
    && (!a.ResponseClear? ==> s'.timers == s.timers)
    && (forall id <- s'.timers :: id in s.timers && s'.timers[id] == s.timers[id])
  }

  lemma ResponseTouches(s: State, a: Action, s': State)
    requires ResponseAction(a) && ResponseNext(s, a) == Some(s')
    ensures ResponseTouched(s, a, s')
  {
    hide ResponseNext, ResponseTouched;
    match a
    case ResponseTake(ok, now) => ResponseTakeTouches(s, ok, now, s');
    case ResponseReread(ok) => ResponseRereadTouches(s, ok, s');
    case ResponseClear => ResponseClearTouches(s, s');
    case ResponsePublish(ok) => ResponsePublishTouches(s, ok, s');
  }

  lemma ResponseTakeTouches(s: State, ok: bool, now: int, s': State)
    requires ResponseNext(s, ResponseTake(ok, now)) == Some(s')
    ensures ResponseTouched(s, ResponseTake(ok, now), s')
  {
    hide MatchTx;
  }

  lemma ResponseRereadTouches(s: State, ok: bool, s': State)
    requires ResponseNext(s, ResponseReread(ok)) == Some(s')
    ensures ResponseTouched(s, ResponseReread(ok), s')
  {
  }

  lemma ResponseClearTouches(s: State, s': State)
    requires ResponseNext(s, ResponseClear) == Some(s')
    ensures ResponseTouched(s, ResponseClear, s')
  {
  }

  lemma ResponsePublishTouches(s: State, ok: bool, s': State)
    requires ResponseNext(s, ResponsePublish(ok)) == Some(s')
    ensures ResponseTouched(s, ResponsePublish(ok), s')
  {
    hide StatusMessageFor;
  }

  // ----- the driver-status consumer

  ghost predicate StatusTouched(s: State, a: Action, s': State) {
    && s' == s.(db := s'.db, status := s'.status, rideStatus := s'.rideStatus,
                history := s.history.(handled := s'.history.handled))
    && (!a.StatusCommit? ==> s'.db == s.db)
  }

  lemma StatusTouches(s: State, a: Action, s': State)
    requires StatusAction(a) && StatusNext(s, a) == Some(s')
    ensures StatusTouched(s, a, s')
  {
    hide StatusNext, StatusTouched;
    match a
    case StatusTake(ok, now) => StatusTakeTouches(s, ok, now, s');
    case StatusCommit(ok, now) => StatusCommitTouches(s, ok, now, s');
    case StatusReread(ok) => StatusRereadTouches(s, ok, s');
    case StatusPublish(ok) => StatusPublishTouches(s, ok, s');
  }

  lemma HandlingTouches(s: State, m: DriverStatusMessage)
    ensures Handling(s, m) == s.(history := s.history.(handled := Handling(s, m).history.handled))
  {
    hide HandledOf;
  }

  lemma StatusTakeTouches(s: State, ok: bool, now: int, s': State)
    requires StatusNext(s, StatusTake(ok, now)) == Some(s')
    ensures StatusTouched(s, StatusTake(ok, now), s')
  {
    hide Decided, Handling;
    if s.status.queue != [] { HandlingTouches(s, s.status.queue[0]); }
  }

  lemma StatusCommitTouches(s: State, ok: bool, now: int, s': State)
    requires StatusNext(s, StatusCommit(ok, now)) == Some(s')
    ensures StatusTouched(s, StatusCommit(ok, now), s')
  {
    hide StatusTx;
  }

  lemma StatusRereadTouches(s: State, ok: bool, s': State)
    requires StatusNext(s, StatusReread(ok)) == Some(s')
    ensures StatusTouched(s, StatusReread(ok), s')
  {
  }

  lemma StatusPublishTouches(s: State, ok: bool, s': State)
    requires StatusNext(s, StatusPublish(ok)) == Some(s')
    ensures StatusTouched(s, StatusPublish(ok), s')
  {
    hide StatusMessageFor;
  }

  // ----- the driver service

  predicate DriverAction(a: Action) {
    a.DriverPublish? || a.DetailsTake? || a.ArrivedRead? || a.ArrivedPublish?
  }

  lemma DriverTouches(s: State, a: Action, s': State)
    requires DriverAction(a) && DriverNext(s, a) == Some(s')
    ensures s' == s.(status := s.status.(queue := s'.status.queue), rideStatus := s'.rideStatus,
              arrivals := s'.arrivals)
  {
    hide DriverNext;
    match a
    case DriverPublish(m) => DriverPublishTouches(s, m, s');
    case DetailsTake(ok) => DetailsTouches(s, ok, s');
    case ArrivedRead(n, driverId, id) => ArrivedReadTouches(s, n, driverId, id, s');
    case ArrivedPublish(n, ok) => ArrivedPublishTouches(s, n, ok, s');
  }

  lemma DriverPublishTouches(s: State, m: DriverStatusMessage, s': State)
    requires DriverNext(s, DriverPublish(m)) == Some(s')
    ensures s' == s.(status := s.status.(queue := s'.status.queue))
  {
  }

  lemma DetailsTouches(s: State, ok: bool, s': State)
    requires DriverNext(s, DetailsTake(ok)) == Some(s')
    ensures s' == s.(status := s.status.(queue := s'.status.queue), rideStatus := s'.rideStatus)
  {
    hide ShouldSendRideDetails;
  }

  lemma ArrivedReadTouches(s: State, n: nat, driverId: string, id: string, s': State)
    requires DriverNext(s, ArrivedRead(n, driverId, id)) == Some(s')
    ensures s' == s.(arrivals := s'.arrivals)
  {
  }

  lemma ArrivedPublishTouches(s: State, n: nat, ok: bool, s': State)
    requires DriverNext(s, ArrivedPublish(n, ok)) == Some(s')
    ensures s' == s.(status := s.status.(queue := s'.status.queue), arrivals := s'.arrivals)
  {
  }

  // ----- cancel calls

  predicate CancelStep(a: Action) {
    a.CancelRead? || a.CancelCommit? || a.CancelReread? || a.CancelClear? || a.CancelPublish?
  }

  /** The call that moves goes on or ends; if it ends on a repository failure before its write, that is recorded. */
  ghost predicate CancelTouched(s: State, a: Action, s': State)
    requires CancelStep(a)
  {
    var k := a.call;
    && k in s.calls
    && s' == s.(db := s'.db, timers := s'.timers, calls := s'.calls, rideStatus := s'.rideStatus,
                history := s.history.(abandoned := s'.history.abandoned))
    && (!a.CancelCommit? ==> s'.db == s.db)
    && (!a.CancelClear? ==> s'.timers == s.timers)
    && (forall id <- s'.timers :: id in s.timers && s'.timers[id] == s.timers[id])
    && (s'.calls == s.calls - {k} || (k in s'.calls && s'.calls == s.calls[k := s'.calls[k]]))
    && (k in s'.calls && !s'.calls[k].AtCancelWrite? ==> AfterCommit(s'.calls[k]))
    && (k in s'.calls && s'.calls[k].AtCancelWrite? ==> s.calls[k].AtCancelGet?)
    && (s'.history.abandoned == s.history.abandoned
        || (k.TimerCall? && k !in s'.calls && s'.history.abandoned == s.history.abandoned + {k.rideId}))
  }

  predicate AfterCommit(pc: CallPc) {
    pc.AtCancelReread? || pc.AtCancelClear? || pc.AtCancelPublish?
  }

  lemma CancelTouches(s: State, a: Action, s': State)
    requires CancelStep(a) && CancelNext(s, a) == Some(s')
    ensures CancelTouched(s, a, s')
  {
    hide CancelNext, CancelTouched;
    match a
    case CancelRead(k, ok) => CancelReadTouches(s, k, ok, s');
    case CancelCommit(k, ok, now) => CancelCommitTouches(s, k, ok, now, s');
    case CancelReread(k, ok) => CancelRereadTouches(s, k, ok, s');
    case CancelClear(k) => CancelClearTouches(s, k, s');
    case CancelPublish(k, ok) => CancelPublishTouches(s, k, ok, s');
  }

  lemma CancelReadTouches(s: State, k: CallId, ok: bool, s': State)
    requires CancelNext(s, CancelRead(k, ok)) == Some(s')
    ensures CancelTouched(s, CancelRead(k, ok), s')
  {
    hide CalculateRefund;
  }

  lemma CancelCommitTouches(s: State, k: CallId, ok: bool, now: int, s': State)
    requires CancelNext(s, CancelCommit(k, ok, now)) == Some(s')
    ensures CancelTouched(s, CancelCommit(k, ok, now), s')
  {
    hide CancelTx;
  }

  lemma CancelRereadTouches(s: State, k: CallId, ok: bool, s': State)
    requires CancelNext(s, CancelReread(k, ok)) == Some(s')
    ensures CancelTouched(s, CancelReread(k, ok), s')
  {
  }

  lemma CancelClearTouches(s: State, k: CallId, s': State)
    requires CancelNext(s, CancelClear(k)) == Some(s')
    ensures CancelTouched(s, CancelClear(k), s')
  {
  }

  lemma CancelPublishTouches(s: State, k: CallId, ok: bool, s': State)
    requires CancelNext(s, CancelPublish(k, ok)) == Some(s')
    ensures CancelTouched(s, CancelPublish(k, ok), s')
  {
    hide StatusMessageFor;
  }
}
