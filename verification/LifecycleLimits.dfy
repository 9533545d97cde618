/** Runs that show what the code does not guarantee. */
module LifecycleLimits {
  import opened Prelude
  import opened Fare
  import opened RideStore
  import opened Lifecycle
  import opened LifecycleSteps
  import opened LifecycleRuns

  function CreateActions(id: string): seq<Action> {
    [CreateCommit(id, "passenger", "ECONOMY", 1.0), CreatePublish(id, true), CreateArm(id)]
  }

  /** A ride just created, its matching timer armed. */
  function Created(id: string): State {
    var fare := CalculateFareEstimate("ECONOMY", 1.0);
    var ride := NewRide("passenger", "ECONOMY", 1.0, if fare.Ok? then fare.value.fare else 0.0);
    Init().(db := CreateTx(Init().db, id, ride), timers := map[id := true],
            history := History({id}, {}, map[]))
  }

  lemma CreatedIsReached(id: string)
    requires id != ""
    ensures Run(Init(), CreateActions(id)) == Some(Created(id))
  {
    QuoteTracksIdeal("ECONOMY", 1.0);
    hide CalculateFareEstimate;
    var s0, actions := Init(), CreateActions(id);
    var s1 := Next(s0, actions[0]).value;
    var s2 := Next(s1, actions[1]).value;
    var s3 := Next(s2, actions[2]).value;
    OneStep(s0, actions[0], s1);
    Extend(s0, [actions[0]], s1, actions[1], s2);
    Extend(s0, [actions[0], actions[1]], s2, actions[2], s3);
    assert s3.creating == map[] && s3.timers == map[id := true] && s3.history.created == {id};
    assert [actions[0], actions[1]] + [actions[2]] == actions;
  }

  function Response(id: string): DriverResponse {
    DriverResponse(id, "driver", true)
  }

  /** The same ride after a driver's acceptance was committed, before the consumer goes on. */
  function JustMatched(s: State, id: string): State {
    var tx := MatchTx(s.db, id, "driver", 0);
    s.(db := if tx.Ok? then tx.value else s.db, response := ResponseConsumer([Response(id)], AtResponseReread, 1))
  }

  lemma MatchReached(s: State, id: string)
    requires id != "" && id in s.db.rides && s.db.rides[id].status == Requested
              && s.response == ResponseConsumer([], ResponseIdle, 0)
    ensures Run(s, [ResponseArrive(Response(id)), ResponseTake(true, 0)]) == Some(JustMatched(s, id))
  {
    var s1 := Next(s, ResponseArrive(Response(id))).value;
    assert s1.response.queue == [Response(id)];
    OneStep(s, ResponseArrive(Response(id)), s1);
    Extend(s, [ResponseArrive(Response(id))], s1, ResponseTake(true, 0), JustMatched(s, id));
  }

  /** A cancellation request that goes through without interruption. */
  lemma CancelReached(s: State, id: string)
    requires id in s.db.rides && HttpCall(0) !in s.calls
    requires s.db.rides[id].status == Requested || s.db.rides[id].status == Matched
    ensures var actions := [CancelBegin(0, id, "", "r"), CancelRead(HttpCall(0), true),
              CancelCommit(HttpCall(0), true, 0)];
            && Run(s, actions).Some? && var t := Run(s, actions).value;
            && id in t.db.rides && t.db.rides[id].status == Cancelled
            && t == s.(db := t.db, calls := t.calls)
  {
    hide CalculateRefund;
    var call := HttpCall(0);
    var s1 := Next(s, CancelBegin(0, id, "", "r")).value;
    var s2 := Next(s1, CancelRead(call, true)).value;
    var s3 := Next(s2, CancelCommit(call, true, 0)).value;
    OneStep(s, CancelBegin(0, id, "", "r"), s1);
    Extend(s, [CancelBegin(0, id, "", "r")], s1, CancelRead(call, true), s2);
    Extend(s, [CancelBegin(0, id, "", "r"), CancelRead(call, true)], s2, CancelCommit(call, true, 0), s3);
  }

  /** An arrival accepted before a cancellation is committed after it. */
  lemma LateArrivalReached(s: State, id: string)
    requires id != "" && id in s.db.rides && s.db.rides[id].status == Cancelled
              && s.arrivals == map[0 := ("driver", id)]
    requires s.status == StatusConsumer([], StatusIdle, 0)
    ensures var actions := [ArrivedPublish(0, true), StatusTake(true, 0), StatusCommit(true, 0)];
            && Run(s, actions).Some? && var t := Run(s, actions).value;
            id in t.db.rides && t.db.rides[id].status == Arrived
  {
    var s1 := Next(s, ArrivedPublish(0, true)).value;
    assert s1.status.queue == [DriverStatusMessage("driver", ARRIVED, id)];
    var s2 := Next(s1, StatusTake(true, 0)).value;
    var s3 := Next(s2, StatusCommit(true, 0)).value;
    OneStep(s, ArrivedPublish(0, true), s1);
    Extend(s, [ArrivedPublish(0, true)], s1, StatusTake(true, 0), s2);
    Extend(s, [ArrivedPublish(0, true), StatusTake(true, 0)], s2, StatusCommit(true, 0), s3);
  }

  lemma JustMatchedFacts(s: State, id: string)
    requires id in s.db.rides && s.db.rides[id].status == Requested
    ensures var m := JustMatched(s, id);
            && id in m.db.rides && m.db.rides[id].status == Matched && m.db.rides[id].driverId == Some("driver")
            && m == s.(db := m.db, response := m.response)
  {
  }

  lemma ArrivalReached(m: State, id: string)
    requires id != "" && id in m.db.rides && m.db.rides[id].status == Matched
              && m.db.rides[id].driverId == Some("driver")
    requires m.arrivals == map[]
    ensures Run(m, [ArrivedRead(0, "driver", id)]) == Some(m.(arrivals := map[0 := ("driver", id)]))
  {
    OneStep(m, ArrivedRead(0, "driver", id), m.(arrivals := map[0 := ("driver", id)]));
  }

  lemma CreatedFacts(id: string)
    requires id != ""
    ensures var c := Created(id);
            && Reachable(c) && id in c.db.rides && c.db.rides[id].status == Requested
            && c == Init().(db := c.db, timers := map[id := true], history := c.history)
  {
    hide CalculateFareEstimate, Run, Next;
    CreatedIsReached(id);
  }

  /** A matched ride whose driver's arrival has been accepted and not yet published. */
  lemma ArrivalAccepted(id: string) returns (w: State)
    requires id != ""
    ensures Reachable(w) && id in w.db.rides && w.db.rides[id].status == Matched
    ensures w.arrivals == map[0 := ("driver", id)] && HttpCall(0) !in w.calls
              && w.status == StatusConsumer([], StatusIdle, 0)
  {
    hide Next, Run, Created, JustMatched, Reachable;
    var c := Created(id);
    CreatedFacts(id);
    MatchReached(c, id);
    JustMatchedFacts(c, id);
    var m := JustMatched(c, id);
    ReachableThen(c, [ResponseArrive(Response(id)), ResponseTake(true, 0)], m);
    ArrivalReached(m, id);
    w := m.(arrivals := map[0 := ("driver", id)]);
    ReachableThen(m, [ArrivedRead(0, "driver", id)], w);
  }

  /** CANCELLED is not final: some reachable state with a cancelled ride leads to one where the ride has arrived. */
  lemma CancelledIsNotFinal(id: string) returns (s: State, actions: seq<Action>)
    requires id != ""
    ensures Reachable(s) && id in s.db.rides && s.db.rides[id].status == Cancelled
    ensures Run(s, actions).Some?
    ensures var t := Run(s, actions).value; id in t.db.rides && t.db.rides[id].status == Arrived
  {
    hide Next, Run;
    var w := ArrivalAccepted(id);
    CancelReached(w, id);
    var cancel := [CancelBegin(0, id, "", "r"), CancelRead(HttpCall(0), true), CancelCommit(HttpCall(0), true, 0)];
    s := Run(w, cancel).value;
    ReachableThen(w, cancel, s);
    LateArrivalReached(s, id);
    actions := [ArrivedPublish(0, true), StatusTake(true, 0), StatusCommit(true, 0)];
  }

  /** cancelRide, once started, cancels a matched ride. */
  lemma SecondReadCancels(s: State, call: CallId, id: string)
    requires call in s.calls && s.calls[call] == AtCancelGet(id, "", TIMEOUT_REASON)
    requires id in s.db.rides && s.db.rides[id].status == Matched
    ensures var actions := [CancelRead(call, true), CancelCommit(call, true, 0)];
            && Run(s, actions).Some? && var t := Run(s, actions).value;
            id in t.db.rides && t.db.rides[id].status == Cancelled
  {
    hide CalculateRefund;
    var s1 := Next(s, CancelRead(call, true)).value;
    var s2 := Next(s1, CancelCommit(call, true, 0)).value;
    OneStep(s, CancelRead(call, true), s1);
    Extend(s, [CancelRead(call, true)], s1, CancelCommit(call, true, 0), s2);
    assert [CancelRead(call, true)] + [CancelCommit(call, true, 0)]
       == [CancelRead(call, true), CancelCommit(call, true, 0)];
  }

  /** The timeout callback can cancel a ride that was matched between its two reads. */
  lemma TimeoutCancelsMatchedRide(id: string) returns (s: State, actions: seq<Action>)
    requires id != ""
    ensures Reachable(s) && id in s.db.rides && s.db.rides[id].status == Matched
    ensures actions == [CancelRead(TimerCall(id), true), CancelCommit(TimerCall(id), true, 0)]
    ensures Run(s, actions).Some?
    ensures var t := Run(s, actions).value; id in t.db.rides && t.db.rides[id].status == Cancelled
  {
    hide Next, Run, JustMatched, Reachable;
    var r := CallbackPastItsCheck(id);
    MatchReached(r, id);
    JustMatchedFacts(r, id);
    s := JustMatched(r, id);
    ReachableThen(r, [ResponseArrive(Response(id)), ResponseTake(true, 0)], s);
    SecondReadCancels(s, TimerCall(id), id);
    actions := [CancelRead(TimerCall(id), true), CancelCommit(TimerCall(id), true, 0)];
  }

  /** The timer has fired and its callback has seen REQUESTED. */
  lemma CallbackPastItsCheck(id: string) returns (r: State)
    requires id != ""
    ensures Reachable(r) && id in r.db.rides && r.db.rides[id].status == Requested
    ensures r.response == ResponseConsumer([], ResponseIdle, 0)
    ensures TimerCall(id) in r.calls && r.calls[TimerCall(id)] == AtCancelGet(id, "", TIMEOUT_REASON)
  {
    hide CalculateFareEstimate;
    var c := Created(id);
    CreatedIsReached(id);
    assert Reachable(c);
    var f := Next(c, TimerFire(id)).value;
    r := Next(f, CallbackRead(id, true)).value;
    OneStep(c, TimerFire(id), f);
    Extend(c, [TimerFire(id)], f, CallbackRead(id, true), r);
    ReachableThen(c, [TimerFire(id)] + [CallbackRead(id, true)], r);
  }

  /** HandleStart publishes for any ride id, so a ride can be IN_PROGRESS without ever having had a driver. */
  lemma InProgressWithoutDriver(id: string) returns (t: State)
    requires id != ""
    ensures Reachable(t) && id in t.db.rides && t.db.rides[id].status == InProgress && t.db.rides[id].driverId == None
  {
    hide Run, Created, Reachable;
    var c, m := Created(id), DriverStatusMessage("driver", BUSY, id);
    CreatedFacts(id);
    var s1 := Next(c, DriverPublish(m)).value;
    assert s1.status.queue == [m];
    var s2 := Next(s1, StatusTake(true, 0)).value;
    t := Next(s2, StatusCommit(true, 0)).value;
    CreatedHasNoDriver(id);
    OneStep(c, DriverPublish(m), s1);
    Extend(c, [DriverPublish(m)], s1, StatusTake(true, 0), s2);
    Extend(c, [DriverPublish(m)] + [StatusTake(true, 0)], s2, StatusCommit(true, 0), t);
    ReachableThen(c, [DriverPublish(m)] + [StatusTake(true, 0)] + [StatusCommit(true, 0)], t);
  }

  lemma CreatedHasNoDriver(id: string)
    ensures id in Created(id).db.rides && Created(id).db.rides[id].driverId == None
  {
  }
}
