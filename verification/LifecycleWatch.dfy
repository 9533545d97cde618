/**
 Which requests somebody is going to give up on (internal/ride/service.go). A timer is armed only after the request was
 published, and a callback that the repository fails is not run again; in exactly these two cases a request can stay
 REQUESTED with nobody watching it.
 */
module LifecycleWatch {
  import opened Prelude
  import opened Fare
  import opened RideStore
  import opened RideInvariant
  import opened Lifecycle
  import opened LifecycleInvariant
  import opened LifecycleRuns
  import opened LifecycleFrames
  import opened LifecycleSteps
  import opened LifecycleTheorems
  import opened LifecycleLimits

  predicate Armed(s: State, id: string) {
    id in s.timers && s.timers[id]
  }

  /** Its creator has still to arm the timer, the timer is armed, or its callback has not come to its write. */
  ghost predicate Watching(s: State, id: string) {
    Armed(s, id) || CallbackRunning(s, id) || id in s.creating
  }

  ghost predicate AbandonedOk(s: State, id: string) {
    id in s.history.created && !Armed(s, id) && TimerCall(id) !in s.calls
  }

  ghost predicate AbandonedInv(s: State) {
    forall id <- s.history.abandoned :: AbandonedOk(s, id)
  }

  // ----- what one action does to those who watch

  /** Callbacks come from armed timers, and only a callback that ends is abandoned. */
  ghost predicate CallsFrame(s: State, s': State) {
    && (forall id :: TimerCall(id) in s'.calls ==> TimerCall(id) in s.calls || Armed(s, id))
    && (forall id :: CallbackRunning(s', id) ==> CallbackRunning(s, id) || Armed(s, id))
    && (forall id <- s'.history.abandoned ::
          id in s.history.abandoned || (TimerCall(id) in s.calls && TimerCall(id) !in s'.calls))
    && (forall id <- s'.creating :: id in s.creating || id !in s.db.rides)
  }

  lemma NextCalls(s: State, a: Action, s': State)
    requires Next(s, a) == Some(s')
    ensures CallsFrame(s, s')
  {
    hide CreateNext, TimerNext, CancelNext, ResponseNext, StatusNext, DriverNext, CallsFrame;
    if a.CreateCommit? || a.CreatePublish? || a.CreateArm? {
      CreateCalls(s, a, s');
    } else if a.TimerFire? || a.CallbackRead? {
      TimerCalls(s, a, s');
    } else if a.CancelRead? || a.CancelCommit? || a.CancelReread? || a.CancelClear? || a.CancelPublish? {
      CancelCalls(s, a, s');
    } else if a.ResponseTake? || a.ResponseReread? || a.ResponseClear? || a.ResponsePublish? {
      ResponseCalls(s, a, s');
    } else if a.StatusTake? || a.StatusCommit? || a.StatusReread? || a.StatusPublish? {
      StatusCalls(s, a, s');
    } else if a.CancelBegin? || a.ResponseArrive? {
      RequestCalls(s, a, s');
    } else {
      DriverCalls(s, a, s');
    }
  }

  lemma CreateCalls(s: State, a: Action, s': State)
    requires (a.CreateCommit? || a.CreatePublish? || a.CreateArm?) && CreateNext(s, a) == Some(s')
    ensures CallsFrame(s, s')
  {
  }

  lemma TimerCalls(s: State, a: Action, s': State)
    requires (a.TimerFire? || a.CallbackRead?) && TimerNext(s, a) == Some(s')
    ensures CallsFrame(s, s')
  {
  }

  lemma CancelCalls(s: State, a: Action, s': State)
    requires CancelStep(a) && CancelNext(s, a) == Some(s')
    ensures CallsFrame(s, s')
  {
    hide CancelNext;
    CancelTouches(s, a, s');
  }

  lemma RequestCalls(s: State, a: Action, s': State)
    requires (a.CancelBegin? || a.ResponseArrive?) && Next(s, a) == Some(s')
    ensures CallsFrame(s, s')
  {
  }

  lemma SameCalls(s: State, s': State)
    requires s'.calls == s.calls && s'.creating == s.creating && s'.history.abandoned == s.history.abandoned
    ensures CallsFrame(s, s')
  {
  }

  lemma ResponseCalls(s: State, a: Action, s': State)
    requires ResponseAction(a) && ResponseNext(s, a) == Some(s')
    ensures CallsFrame(s, s')
  {
    hide ResponseNext, CallsFrame;
    ResponseTouches(s, a, s');
    SameCalls(s, s');
  }

  lemma StatusCalls(s: State, a: Action, s': State)
    requires StatusAction(a) && StatusNext(s, a) == Some(s')
    ensures CallsFrame(s, s')
  {
    hide StatusNext, CallsFrame;
    StatusTouches(s, a, s');
    SameCalls(s, s');
  }

  lemma DriverCalls(s: State, a: Action, s': State)
    requires DriverAction(a) && DriverNext(s, a) == Some(s')
    ensures CallsFrame(s, s')
  {
    hide DriverNext, CallsFrame;
    DriverTouches(s, a, s');
    SameCalls(s, s');
  }

  lemma NextKeepsAbandoned(s: State, a: Action, s': State)
    requires TimersInv(s) && AbandonedInv(s) && Next(s, a) == Some(s')
    ensures AbandonedInv(s')
  {
    hide Next;
    NextCalls(s, a, s');
    NextQuiet(s, a, s');
    forall id | id in s'.history.abandoned ensures AbandonedOk(s', id) {
      assert TimerOk(s, id);
      assert id in s.history.abandoned ==> AbandonedOk(s, id);
    }
  }

  lemma {:induction false} RunKeepsAbandoned(s: State, actions: seq<Action>)
    requires Inv(s) && AbandonedInv(s) && Run(s, actions).Some?
    ensures AbandonedInv(Run(s, actions).value)
    decreases |actions|
  {
    hide Next, DbInv, CallsInv, StatusOk, FareOk, ResponseOk, MessagesInv, TimerOk, OrderInv, AbandonedInv;
    if actions != [] {
      var s' := Next(s, actions[0]).value;
      NextKeepsInv(s, actions[0], s');
      NextKeepsAbandoned(s, actions[0], s');
      RunKeepsAbandoned(s', actions[1..]);
    }
  }

  lemma ReachableAbandoned(s: State)
    requires Reachable(s)
    ensures AbandonedInv(s)
  {
    hide Next, Run;
    var actions: seq<Action> :| Run(Init(), actions) == Some(s);
    InitInv();
    RunKeepsAbandoned(Init(), actions);
  }

  // ----- exactly which requests are watched

  /**
   A ride still REQUESTED is watched if and only if it is being created, or was and no repository failure ended its
   callback.
   */
  lemma WatchedExactly(s: State, id: string)
    requires Reachable(s) && id in s.db.rides && s.db.rides[id].status == Requested
    ensures Watching(s, id) <==> id in s.creating || (id in s.history.created && id !in s.history.abandoned)
  {
    hide Next, Run, DbInv, CallsInv, StatusOk, FareOk, ResponseOk, MessagesInv, OrderInv;
    ReachableInv(s);
    ReachableAbandoned(s);
    assert TimerOk(s, id);
    assert id in s.history.abandoned ==> AbandonedOk(s, id);
  }

  /** A ride that nobody watches is never watched again. */
  lemma {:induction false} UnwatchedForGood(s: State, id: string, actions: seq<Action>, later: State)
    requires Inv(s) && id in s.db.rides && !Watching(s, id) && Run(s, actions) == Some(later)
    ensures !Watching(later, id)
    decreases |actions|
  {
    hide Next, DbInv, CallsInv, StatusOk, FareOk, ResponseOk, MessagesInv, TimersInv, OrderInv;
    if actions != [] {
      var s' := Next(s, actions[0]).value;
      NextKeepsInv(s, actions[0], s');
      NextEvolves(s, actions[0], s');
      NextCalls(s, actions[0], s');
      NextQuiet(s, actions[0], s');
      UnwatchedForGood(s', id, actions[1..], later);
    }
  }

  // ----- the two ways to get there

  /** The publish fails after the insert: the ride is stored and never gets a timer. */
  lemma UnpublishedRequestIsUnwatched(id: string) returns (s: State)
    requires id != ""
    ensures Reachable(s) && id in s.db.rides && s.db.rides[id].status == Requested
    ensures id !in s.history.created && !Watching(s, id)
  {
    QuoteTracksIdeal("ECONOMY", 1.0);
    hide CalculateFareEstimate;
    var s0, commit := Init(), CreateCommit(id, "passenger", "ECONOMY", 1.0);
    var s1 := Next(s0, commit).value;
    s := Next(s1, CreatePublish(id, false)).value;
    OneStep(s0, commit, s1);
    Extend(s0, [commit], s1, CreatePublish(id, false), s);
    assert Run(Init(), [commit] + [CreatePublish(id, false)]) == Some(s);
  }

  /** The repository fails the one callback: the ride was created, its timer is spent, and nobody comes back to it. */
  lemma FailedCallbackLeavesUnwatched(id: string) returns (s: State)
    requires id != ""
    ensures Reachable(s) && id in s.db.rides && s.db.rides[id].status == Requested
    ensures id in s.history.created && id in s.history.abandoned && !Watching(s, id)
  {
    hide Run, Reachable;
    var c := Created(id);
    CreatedFacts(id);
    assert id !in c.creating;
    var f := Next(c, TimerFire(id)).value;
    s := Next(f, CallbackRead(id, false)).value;
    OneStep(c, TimerFire(id), f);
    Extend(c, [TimerFire(id)], f, CallbackRead(id, false), s);
    ReachableThen(c, [TimerFire(id)] + [CallbackRead(id, false)], s);
  }
}
