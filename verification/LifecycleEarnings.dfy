/**
 Which fare a driver's session is credited with (internal/driverlocation/handler.go,
 internal/driverlocation/repository.go).
 HandleComplete publishes AVAILABLE and looks the fare up at once: it finds the final fare if the ride service has
 committed the completion by then, and the estimate otherwise.
 */
module LifecycleEarnings {
  import opened Prelude
  import opened Fare
  import opened RideStore
  import opened RideInvariant
  import opened Lifecycle
  import opened LifecycleInvariant
  import opened LifecycleSteps
  import opened LifecycleTheorems
  import opened LifecycleRuns
  import opened LifecycleLimits
  import opened LifecycleRestarts
  import DriverSessions

  /** The final fare of a row, its estimate while there is none, nothing for an unknown ride. */
  function GetRideFare(db: Db, id: string): (fare: real)
    ensures id !in db.rides ==> fare == 0.0
  {
    if id !in db.rides then 0.0
    else if db.rides[id].finalFare.Some? then db.rides[id].finalFare.value
    else db.rides[id].estimatedFare
  }

  /** Fares are stored in whole hundredths. */
  function Hundredths(fare: real): nat {
    if fare <= 0.0 then 0 else (fare * 100.0).Floor
  }

  /** What HandleComplete does to the sessions when it looks the fare up in this state. */
  function CompleteOp(db: Db, driver: string, id: string): DriverSessions.Op {
    DriverSessions.Complete(driver, Hundredths(GetRideFare(db, id)))
  }

  ghost predicate CompletedOnceIn(events: seq<Event>) {
    && CompletedBefore(events)
    && forall i, j | 0 <= i < |events| && 0 <= j < |events| ::
         StatusAfter(events[i]) == Completed && StatusAfter(events[j]) == Completed ==> i == j
  }

  /** Entries after the only completion leave the folded fare alone. */
  lemma {:induction false} FareOfOnlyCompletion(early: seq<Event>, late: seq<Event>, fare: real)
    requires WellFormedLog(late, fare) && early <= late && CompletedBefore(early) && CompletedOnceIn(late)
    ensures Replay(late).finalFare == Replay(early).finalFare
    decreases |late|
  {
    if |early| < |late| {
      var n := |late| - 1;
      var front := late[..n];
      var i :| 0 <= i < |early| && StatusAfter(early[i]) == Completed;
      assert late[i] == early[i] && front[i] == early[i];
      assert StatusAfter(late[n]) != Completed;
      assert LegalEvent(late[n], fare);
      forall k | 0 <= k < n ensures Linked(front, k) { assert Linked(late, k); }
      FrontCompletedOnce(late);
      FareOfOnlyCompletion(early, front, fare);
    } else {
      assert early == late;
    }
  }

  lemma FrontCompletedOnce(events: seq<Event>)
    requires events != [] && CompletedOnceIn(events) && StatusAfter(events[|events| - 1]) != Completed
    ensures CompletedOnceIn(events[..|events| - 1])
  {
    var i :| 0 <= i < |events| && StatusAfter(events[i]) == Completed;
    assert StatusAfter(events[..|events| - 1][i]) == Completed;
  }

  /**
   A ride that completes once is credited at its final fare, in any run through the look-up to after the completion,
   exactly if the completion had been committed at the look-up, or the estimate was right to the hundredth.
   */
  lemma CreditIsFinalExactly(t: State, id: string, driver: string, actions: seq<Action>, u: State)
    requires Reachable(t) && id in t.db.rides && Run(t, actions) == Some(u)
    requires CompletedOnceIn(EventsOf(u.db, id))
    ensures id in u.db.rides && u.db.rides[id].finalFare.Some?
    ensures CompleteOp(t.db, driver, id) == DriverSessions.Complete(driver, Hundredths(u.db.rides[id].finalFare.value))
            <==> CompletedBefore(EventsOf(t.db, id))
                 || Hundredths(t.db.rides[id].estimatedFare) == Hundredths(u.db.rides[id].finalFare.value)
  {
    hide CallsInv, StatusOk, FareOk, ResponseOk, MessagesInv, TimersInv, OrderInv, RowFacts, Run, Next, Replay;
    hide CompletedBefore, CompletedOnceIn, WellFormedLog, Hundredths;
    ReachableInv(t);
    ReachableThen(t, actions, u);
    RunEvolves(t, actions, u);
    OnceIsBefore(EventsOf(u.db, id));
    CompletionTimeExactly(t, id);
    CompletionTimeExactly(u, id);
    assert RowOk(t.db.rides[id], t.db.log[id]) && RowOk(u.db.rides[id], u.db.log[id]);
    if CompletedBefore(EventsOf(t.db, id)) {
      FareOfOnlyCompletion(EventsOf(t.db, id), EventsOf(u.db, id), u.db.rides[id].estimatedFare);
    }
  }

  lemma OnceIsBefore(events: seq<Event>)
    requires CompletedOnceIn(events)
    ensures CompletedBefore(events)
  {
  }

  // ----- a run in which the look-up comes first

  lemma EconomyFares()
    ensures CalculateFareEstimate("ECONOMY", 1.0).Ok? && CalculateFareEstimate("ECONOMY", 1.0).value.fare == 700.0
    ensures CalculateFare("ECONOMY", 1.0, 60) == Ok(3600.0)
  {
    RoundExact(70000);
    RoundExact(360000);
  }

  /** A ride driven for an hour: the driver is credited 0.8 of the 700 estimated, while the passenger pays 3600. */
  lemma EstimateIsCredited(id: string, driver: string) returns (t: State, actions: seq<Action>)
    requires id != ""
    ensures Reachable(t) && id in t.db.rides && t.db.rides[id].status == InProgress
    ensures Available(id) in t.status.queue
    ensures CompleteOp(t.db, driver, id) == DriverSessions.Complete(driver, 70000)
    ensures Run(t, actions).Some?
    ensures var u := Run(t, actions).value;
            id in u.db.rides && u.db.rides[id].status == Completed && u.db.rides[id].finalFare == Some(3600.0)
  {
    hide Run, Next, Reachable, CalculateFareEstimate, CalculateFare;
    var c := Created(id);
    CreatedFacts(id);
    EconomyFares();
    ReportReached(c, Busy(id), 0);
    var b := AfterReport(c, Busy(id), 0);
    ReportIsPriced(b, id, 60 * MINUTE);
    ReportReached(b, Available(id), 60 * MINUTE);
    PublishReached(b, Available(id));
    t := Run(b, [DriverPublish(Available(id))]).value;
    ReachableThen(b, [DriverPublish(Available(id))], t);
    actions := ReportActions(Available(id), 60 * MINUTE)[1..];
    RunAppend(b, [DriverPublish(Available(id))], actions);
    assert [DriverPublish(Available(id))] + actions == ReportActions(Available(id), 60 * MINUTE);
  }
}
