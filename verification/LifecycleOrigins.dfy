/**
 Where cancellations, arrivals and announcements come from: each is traced back through its run to the request, the
 read and the row it stands for.
 */
module LifecycleOrigins {
  import opened Prelude
  import opened Fare
  import opened RideStore
  import opened RideInvariant
  import opened Lifecycle
  import opened LifecycleInvariant
  import opened LifecycleRuns
  import opened LifecycleFrames
  import opened LifecycleSteps
  import opened LifecycleTheorems
  import opened LifecycleDecisions

  /** The state before the i-th action of a run. */
  ghost function Before(actions: seq<Action>, i: nat): State
    requires i <= |actions| && Run(Init(), actions).Some?
  {
    RunPrefix(Init(), actions, i);
    Run(Init(), actions[..i]).value
  }

  lemma {:induction false} RunPrefix(s: State, actions: seq<Action>, i: nat)
    requires i <= |actions| && Run(s, actions).Some?
    ensures Run(s, actions[..i]).Some?
    decreases |actions|
  {
    hide Next;
    if i == |actions| {
      assert actions[..i] == actions;
    } else {
      RunLast(s, actions);
      RunPrefix(s, actions[..|actions| - 1], i);
      assert actions[..|actions| - 1][..i] == actions[..i];
    }
  }

  /** Leaving out the last action changes nothing about what came before. */
  lemma BeforeInFront(actions: seq<Action>, i: nat)
    requires i < |actions| && Run(Init(), actions).Some?
    ensures Run(Init(), actions[..|actions| - 1]).Some?
    ensures Before(actions[..|actions| - 1], i) == Before(actions, i)
  {
    hide Next, Run;
    RunLast(Init(), actions);
    assert actions[..|actions| - 1][..i] == actions[..i];
  }

  lemma LastStep(actions: seq<Action>)
    requires actions != [] && Run(Init(), actions).Some?
    ensures Run(Init(), actions[..|actions| - 1]).Some?
    ensures Next(Before(actions, |actions| - 1), actions[|actions| - 1]) == Run(Init(), actions)
    ensures Before(actions, |actions| - 1) == Run(Init(), actions[..|actions| - 1]).value
  {
    hide Next, Run;
    RunLast(Init(), actions);
  }

  // ----- cancellations

  /** The i-th action starts this call, for this ride and passenger and with this reason. */
  ghost predicate Begun(actions: seq<Action>, i: nat, k: CallId, id: string, passengerId: string, reason: string)
    requires i < |actions| && Run(Init(), actions).Some?
  {
    match k
    case HttpCall(n) =>
      exists given :: actions[i] == CancelBegin(n, id, passengerId, given)
                      && reason == if given == "" then "Cancelled by passenger" else given
    case TimerCall(ride) =>
      && ride == id && passengerId == "" && actions[i] == CallbackRead(id, true)
      && reason == "No driver found within matching timeout"
      && id in Before(actions, i).db.rides && Before(actions, i).db.rides[id].status == Requested
  }

  /** No later action starts a call of this name. */
  ghost predicate NotBegunAgain(actions: seq<Action>, i: nat, k: CallId) {
    forall j :: i < j < |actions| ==> !Begins(actions[j], k)
  }

  predicate Begins(a: Action, k: CallId) {
    match k
    case HttpCall(n) => a.CancelBegin? && a.n == n
    case TimerCall(id) => a.CallbackRead? && a.id == id
  }

  /** The j-th action reads the ride for this call, finds this status, and finds the ride to be the passenger's. */
  ghost predicate ReadFor(actions: seq<Action>, j: nat, k: CallId, id: string, passengerId: string, seen: Status,
                          refund: real)
    requires j < |actions| && Run(Init(), actions).Some?
  {
    && actions[j] == CancelRead(k, true)
    && id in Before(actions, j).db.rides
    && var ride := Before(actions, j).db.rides[id];
    && (passengerId == "" || ride.passengerId == passengerId)
    && seen == ride.status && refund == CalculateRefund(ride.status, ride.estimatedFare)
  }

  /** Where a call that has not yet written stands: begun at `i`, and read at `j` once it is about to write. */
  ghost predicate Traced(actions: seq<Action>, k: CallId, pc: CallPc, i: nat, j: nat, passengerId: string)
    requires Run(Init(), actions).Some?
  {
    && i < |actions| && NotBegunAgain(actions, i, k)
    && (pc.AtCancelGet? ==> Begun(actions, i, k, pc.rideId, passengerId, pc.reason) && pc.passengerId == passengerId)
    && (pc.AtCancelWrite? ==>
          && i < j < |actions| && Begun(actions, i, k, pc.rideId, passengerId, pc.reason)
          && ReadFor(actions, j, k, pc.rideId, passengerId, pc.seen, pc.refund))
  }

  predicate NotWritten(pc: CallPc) {
    pc.AtCancelGet? || pc.AtCancelWrite?
  }

  /** What one action can do to a call that has not yet written afterwards. */
  lemma CallStep(s: State, a: Action, s': State, k: CallId)
    requires Next(s, a) == Some(s') && k in s'.calls && NotWritten(s'.calls[k])
    requires TimersInv(s)
    ensures || (k in s.calls && s'.calls[k] == s.calls[k] && !Begins(a, k))
            || (a == CancelRead(k, true) && k in s.calls && s.calls[k].AtCancelGet? && s'.calls[k].AtCancelWrite?)
            || (Begins(a, k) && s'.calls[k].AtCancelGet?)
  {
    hide CreateNext, TimerNext, CancelNext, ResponseNext, StatusNext, DriverNext, TimerOk;
    if a.CreateCommit? || a.CreatePublish? || a.CreateArm? {
      CreateLeavesCalls(s, a, s');
    } else if a.TimerFire? || a.CallbackRead? {
      TimerMovesCall(s, a, s', k);
    } else if a.CancelBegin? {
    } else if CancelStep(a) {
      CancelMovesCall(s, a, s', k);
    } else if ResponseAction(a) {
      ResponseTouches(s, a, s');
    } else if StatusAction(a) {
      StatusTouches(s, a, s');
    } else if DriverAction(a) {
      DriverTouches(s, a, s');
    }
  }

  lemma CreateLeavesCalls(s: State, a: Action, s': State)
    requires (a.CreateCommit? || a.CreatePublish? || a.CreateArm?) && CreateNext(s, a) == Some(s')
    ensures s'.calls == s.calls
  {
    hide CalculateFareEstimate, CreateTx;
  }

  lemma TimerMovesCall(s: State, a: Action, s': State, k: CallId)
    requires (a.TimerFire? || a.CallbackRead?) && TimerNext(s, a) == Some(s') && k in s'.calls
              && NotWritten(s'.calls[k])
    ensures (k in s.calls && s'.calls[k] == s.calls[k] && !Begins(a, k)) || (Begins(a, k) && s'.calls[k].AtCancelGet?)
  {
  }

  lemma CancelMovesCall(s: State, a: Action, s': State, k: CallId)
    requires CancelStep(a) && CancelNext(s, a) == Some(s') && k in s'.calls && NotWritten(s'.calls[k])
    ensures || (k in s.calls && s'.calls[k] == s.calls[k])
            || (a == CancelRead(k, true) && k in s.calls && s.calls[k].AtCancelGet? && s'.calls[k].AtCancelWrite?)
  {
    hide CancelNext;
    CancelTouches(s, a, s');
    if k == a.call && a.CancelRead? && !a.ok { FailedReadEnds(s, a, s'); }
    if k == a.call && !a.CancelRead? { OtherStepsWrite(s, a, s'); }
  }

  lemma FailedReadEnds(s: State, a: Action, s': State)
    requires a.CancelRead? && !a.ok && CancelNext(s, a) == Some(s')
    ensures a.call !in s'.calls
  {
  }

  lemma OtherStepsWrite(s: State, a: Action, s': State)
    requires CancelStep(a) && !a.CancelRead? && CancelNext(s, a) == Some(s')
    ensures a.call in s'.calls ==> !NotWritten(s'.calls[a.call])
  {
    hide CancelTx;
  }

  /** Every call that has not yet written can be traced to its request and its read. */
  lemma {:induction false} CallOrigin(actions: seq<Action>, k: CallId) returns (i: nat, j: nat, passengerId: string)
    requires Run(Init(), actions).Some?
    requires k in Run(Init(), actions).value.calls && NotWritten(Run(Init(), actions).value.calls[k])
    ensures Traced(actions, k, Run(Init(), actions).value.calls[k], i, j, passengerId)
    decreases |actions|
  {
    hide Next, Run, Inv, TimersInv, Begun, ReadFor;
    if actions == [] {
      InitHasNoCalls();
      assert false;
    } else {
      var n := |actions| - 1;
      var s, a, s' := Before(actions, n), actions[n], Run(Init(), actions).value;
      LastStep(actions);
      InvAlong(actions, n);
      CallStep(s, a, s', k);
      if Begins(a, k) && s'.calls[k].AtCancelGet? {
        i, j, passengerId := n, 0, s'.calls[k].passengerId;
        BegunNow(actions, k);
      } else {
        i, j, passengerId := CallOrigin(actions[..n], k);
        BegunInFront(actions, i, k, s.calls[k].rideId, passengerId, s.calls[k].reason);
        if s'.calls[k] == s.calls[k] {
          if s.calls[k].AtCancelWrite? {
            ReadInFront(actions, j, k, s.calls[k].rideId, passengerId, s.calls[k].seen, s.calls[k].refund);
          }
        } else {
          j := n;
          ReadNow(actions, k, passengerId);
        }
      }
    }
  }

  lemma InitHasNoCalls()
    ensures Run(Init(), []).value.calls == map[]
  {
  }

  lemma InvAlong(actions: seq<Action>, i: nat)
    requires i <= |actions| && Run(Init(), actions).Some?
    ensures Inv(Before(actions, i)) && TimersInv(Before(actions, i))
  {
    hide Next, Run, TimersInv;
    InitInv();
    RunPrefix(Init(), actions, i);
    RunKeepsInv(Init(), actions[..i]);
  }

  lemma BegunNow(actions: seq<Action>, k: CallId)
    requires actions != [] && Run(Init(), actions).Some? && Begins(actions[|actions| - 1], k)
    requires var s' := Run(Init(), actions).value; k in s'.calls && s'.calls[k].AtCancelGet?
    ensures var pc := Run(Init(), actions).value.calls[k];
            Begun(actions, |actions| - 1, k, pc.rideId, pc.passengerId, pc.reason)
  {
    hide Next, Run, Before;
    var n := |actions| - 1;
    var s, a, s' := Before(actions, n), actions[n], Run(Init(), actions).value;
    LastStep(actions);
    match k {
      case HttpCall(m) =>
        CancelBegins(s, m, a.id, a.passengerId, a.reason, s');
      case TimerCall(id) =>
        CallbackBegins(s, id, a.ok, s');
    }
  }

  lemma CallbackBegins(s: State, id: string, ok: bool, s': State)
    requires Next(s, CallbackRead(id, ok)) == Some(s') && TimerCall(id) in s'.calls
    ensures ok && id in s.db.rides && s.db.rides[id].status == Requested
    ensures s'.calls[TimerCall(id)] == AtCancelGet(id, "", "No driver found within matching timeout")
  {
    if ok { CallbackReadsExactly(s, id, s'); }
  }

  lemma ReadNow(actions: seq<Action>, k: CallId, passengerId: string)
    requires actions != [] && Run(Init(), actions).Some? && actions[|actions| - 1] == CancelRead(k, true)
    requires var s, s' := Before(actions, |actions| - 1), Run(Init(), actions).value;
             && k in s.calls && s.calls[k].AtCancelGet? && s.calls[k].passengerId == passengerId
             && k in s'.calls && s'.calls[k].AtCancelWrite?
    ensures var s, pc := Before(actions, |actions| - 1), Run(Init(), actions).value.calls[k];
            && pc.rideId == s.calls[k].rideId && pc.reason == s.calls[k].reason
            && ReadFor(actions, |actions| - 1, k, pc.rideId, passengerId, pc.seen, pc.refund)
  {
    hide Next, Run, Before;
    LastStep(actions);
    CancelReadsExactly(Before(actions, |actions| - 1), k, Run(Init(), actions).value);
  }

  lemma BegunInFront(actions: seq<Action>, i: nat, k: CallId, id: string, passengerId: string, reason: string)
    requires i < |actions| - 1 && Run(Init(), actions).Some? && Run(Init(), actions[..|actions| - 1]).Some?
    ensures var front := actions[..|actions| - 1];
            Begun(front, i, k, id, passengerId, reason) <==> Begun(actions, i, k, id, passengerId, reason)
  {
    hide Run, Before;
    BeforeInFront(actions, i);
  }

  lemma ReadInFront(actions: seq<Action>, j: nat, k: CallId, id: string, passengerId: string, seen: Status,
                    refund: real)
    requires j < |actions| - 1 && Run(Init(), actions).Some? && Run(Init(), actions[..|actions| - 1]).Some?
    ensures ReadFor(actions[..|actions| - 1], j, k, id, passengerId, seen, refund)
        <==> ReadFor(actions, j, k, id, passengerId, seen, refund)
  {
    hide Run, Before;
    BeforeInFront(actions, j);
  }

  /**
   Every committed cancellation goes back to one request for this very ride. A passenger's is for their own ride and has
   the reason they gave or the default; a timer's found the ride REQUESTED. The refund logged is that of the status the
   call read, as its log entry is the only thing committed.
   */
  lemma CancellationOrigin(actions: seq<Action>, k: CallId, now: int, t': State)
    returns (i: nat, j: nat, passengerId: string)
    requires Run(Init(), actions).Some?
    requires Next(Run(Init(), actions).value, CancelCommit(k, true, now)) == Some(t')
    requires t'.db != Run(Init(), actions).value.db
    ensures i < j < |actions| && NotBegunAgain(actions, i, k)
    ensures var t := Run(Init(), actions).value;
            && k in t.calls && t.calls[k].AtCancelWrite?
            && var pc := t.calls[k];
            && Begun(actions, i, k, pc.rideId, passengerId, pc.reason)
            && ReadFor(actions, j, k, pc.rideId, passengerId, pc.seen, pc.refund)
            && pc.rideId in t.db.rides && (passengerId == "" || t.db.rides[pc.rideId].passengerId == passengerId)
            && EventsOf(t'.db, pc.rideId)
               == EventsOf(t.db, pc.rideId) + [RideCancelled(t.db.rides[pc.rideId].status, Cancelled, pc.reason,
                   pc.refund)]
  {
    hide Next, Run, Begun, ReadFor, Inv, Before, RowFacts, WellFormedLog;
    var t := Run(Init(), actions).value;
    CancelCommitsExactly(t, k, now, t');
    i, j, passengerId := CallOrigin(actions, k);
    PassengerAlong(actions, j, t.calls[k].rideId);
    ReadNames(actions, j, k, t.calls[k].rideId, passengerId, t.calls[k].seen, t.calls[k].refund);
  }

  lemma ReadNames(actions: seq<Action>, j: nat, k: CallId, id: string, passengerId: string, seen: Status, refund: real)
    requires j < |actions| && Run(Init(), actions).Some? && ReadFor(actions, j, k, id, passengerId, seen, refund)
    ensures id in Before(actions, j).db.rides
    ensures passengerId == "" || Before(actions, j).db.rides[id].passengerId == passengerId
  {
    hide Run, Before;
  }

  /** A ride keeps its passenger. */
  lemma PassengerAlong(actions: seq<Action>, j: nat, id: string)
    requires j <= |actions| && Run(Init(), actions).Some?
    ensures id in Before(actions, j).db.rides ==>
              && id in Run(Init(), actions).value.db.rides
              && Run(Init(), actions).value.db.rides[id].passengerId == Before(actions, j).db.rides[id].passengerId
  {
    hide Next, Run, Inv;
    RunPrefix(Init(), actions, j);
    InvAlong(actions, j);
    RunAppend(Init(), actions[..j], actions[j..]);
    assert actions[..j] + actions[j..] == actions;
    RunEvolves(Before(actions, j), actions[j..], Run(Init(), actions).value);
  }

  // ----- arrivals

  /** The i-th action accepted this arrival, from the driver in the row of a ride MATCHED or EN_ROUTE. */
  ghost predicate Accepted(actions: seq<Action>, i: nat, driverId: string, id: string)
    requires i < |actions| && Run(Init(), actions).Some?
  {
    && (exists n :: actions[i] == ArrivedRead(n, driverId, id))
    && id in Before(actions, i).db.rides
    && var ride := Before(actions, i).db.rides[id];
       ride.driverId == Some(driverId) && (ride.status == Matched || ride.status == EnRoute)
  }

  lemma {:induction false} ArrivalRead(actions: seq<Action>, n: nat) returns (i: nat)
    requires Run(Init(), actions).Some? && n in Run(Init(), actions).value.arrivals
    ensures i < |actions|
    ensures var (driverId, id) := Run(Init(), actions).value.arrivals[n]; Accepted(actions, i, driverId, id)
    decreases |actions|
  {
    hide Next, Run, Accepted;
    if actions == [] {
      InitHasNoArrivals();
      assert false;
    } else {
      var last := |actions| - 1;
      var s, a, s' := Before(actions, last), actions[last], Run(Init(), actions).value;
      LastStep(actions);
      ArrivalsFrame(s, a, s', n);
      if n in s.arrivals && s.arrivals[n] == s'.arrivals[n] {
        i := ArrivalRead(actions[..last], n);
        AcceptedInFront(actions, i, s'.arrivals[n].0, s'.arrivals[n].1);
      } else {
        i := last;
        AcceptedNow(actions, n);
      }
    }
  }

  lemma InitHasNoArrivals()
    ensures Run(Init(), []).value.arrivals == map[] && Run(Init(), []).value.status.queue == []
  {
  }

  /** An arrival is as it was, or has just been accepted. */
  lemma ArrivalsFrame(s: State, a: Action, s': State, n: nat)
    requires Next(s, a) == Some(s') && n in s'.arrivals
    ensures (n in s.arrivals && s.arrivals[n] == s'.arrivals[n])
              || a == ArrivedRead(n, s'.arrivals[n].0, s'.arrivals[n].1)
  {
    hide CreateNext, TimerNext, CancelNext, ResponseNext, StatusNext, DriverNext;
    if a.CreateCommit? || a.CreatePublish? || a.CreateArm? || a.TimerFire? || a.CallbackRead? {
      CreateLeavesArrivals(s, a, s');
    } else if CancelStep(a) {
      CancelTouches(s, a, s');
    } else if ResponseAction(a) {
      ResponseTouches(s, a, s');
    } else if StatusAction(a) {
      StatusTouches(s, a, s');
    } else if DriverAction(a) {
      DriverArrivals(s, a, s', n);
    }
  }

  lemma DriverArrivals(s: State, a: Action, s': State, n: nat)
    requires DriverAction(a) && DriverNext(s, a) == Some(s') && n in s'.arrivals
    ensures (n in s.arrivals && s.arrivals[n] == s'.arrivals[n])
              || a == ArrivedRead(n, s'.arrivals[n].0, s'.arrivals[n].1)
  {
    hide ShouldSendRideDetails;
  }

  lemma CreateLeavesArrivals(s: State, a: Action, s': State)
    requires a.CreateCommit? || a.CreatePublish? || a.CreateArm? || a.TimerFire? || a.CallbackRead?
    requires Next(s, a) == Some(s')
    ensures s'.arrivals == s.arrivals && s'.status == s.status
  {
    hide CalculateFareEstimate, CreateTx;
  }

  lemma AcceptedInFront(actions: seq<Action>, i: nat, driverId: string, id: string)
    requires i < |actions| - 1 && Run(Init(), actions).Some? && Run(Init(), actions[..|actions| - 1]).Some?
    requires Accepted(actions[..|actions| - 1], i, driverId, id)
    ensures Accepted(actions, i, driverId, id)
  {
    hide Run, Before;
    BeforeInFront(actions, i);
  }

  lemma AcceptedNow(actions: seq<Action>, n: nat)
    requires actions != [] && Run(Init(), actions).Some? && n in Run(Init(), actions).value.arrivals
    requires var (driverId, id) := Run(Init(), actions).value.arrivals[n];
             actions[|actions| - 1] == ArrivedRead(n, driverId, id)
    ensures var (driverId, id) := Run(Init(), actions).value.arrivals[n];
            Accepted(actions, |actions| - 1, driverId, id)
  {
    hide Run, Before;
    LastStep(actions);
    var (driverId, id) := Run(Init(), actions).value.arrivals[n];
    var s := Before(actions, |actions| - 1);
    FreshArrival(s, n, driverId, id);
    ArrivalAcceptedExactly(s, n, driverId, id);
  }

  lemma FreshArrival(s: State, n: nat, driverId: string, id: string)
    requires Next(s, ArrivedRead(n, driverId, id)).Some?
    ensures n !in s.arrivals
  {
  }

  /** Every ARRIVED message in the queue was accepted from the driver of a ride that was MATCHED or EN_ROUTE. */
  lemma {:induction false} ArrivalOrigin(actions: seq<Action>, m: DriverStatusMessage) returns (i: nat)
    requires Run(Init(), actions).Some? && m in Run(Init(), actions).value.status.queue && m.status == ARRIVED
    ensures i < |actions| && Accepted(actions, i, m.driverId, m.rideId)
    decreases |actions|
  {
    hide Next, Run, Accepted;
    if actions == [] {
      InitHasNoArrivals();
      assert false;
    } else {
      var last := |actions| - 1;
      var s, a, s' := Before(actions, last), actions[last], Run(Init(), actions).value;
      LastStep(actions);
      ArrivedFrame(s, a, s', m);
      if m in s.status.queue {
        i := ArrivalOrigin(actions[..last], m);
      } else {
        i := ArrivalRead(actions[..last], a.n);
      }
      AcceptedInFront(actions, i, m.driverId, m.rideId);
    }
  }

  /** Only publishing an accepted arrival puts an ARRIVED message into the queue. */
  lemma ArrivedFrame(s: State, a: Action, s': State, m: DriverStatusMessage)
    requires Next(s, a) == Some(s') && m in s'.status.queue && m.status == ARRIVED
    ensures m in s.status.queue || (a.ArrivedPublish? && a.n in s.arrivals && s.arrivals[a.n] == (m.driverId, m.rideId))
  {
    hide CreateNext, TimerNext, CancelNext, ResponseNext, StatusNext;
    if a.CreateCommit? || a.CreatePublish? || a.CreateArm? || a.TimerFire? || a.CallbackRead? {
      CreateLeavesArrivals(s, a, s');
    } else if CancelStep(a) {
      CancelTouches(s, a, s');
    } else if ResponseAction(a) {
      ResponseTouches(s, a, s');
    } else if StatusAction(a) {
      ConsumerOnlyTakes(s, a, s');
    }
  }

  lemma ConsumerOnlyTakes(s: State, a: Action, s': State)
    requires StatusAction(a) && StatusNext(s, a) == Some(s')
    ensures forall m <- s'.status.queue :: m in s.status.queue
  {
    hide Decide, FinalFare, StatusTx, Handling;
    if a.StatusTake? { HandlingTouches(s, s.status.queue[0]); }
  }

  // ----- departures

  /** The i-th action took up an announcement that this ride is MATCHED to this driver. */
  ghost predicate MatchSeen(actions: seq<Action>, i: nat, driverId: string, id: string)
    requires i < |actions| && Run(Init(), actions).Some?
  {
    && actions[i] == DetailsTake(true) && id != "" && driverId != ""
    && Before(actions, i).rideStatus != []
        && Before(actions, i).rideStatus[0] == RideStatusMessage(id, Matched, driverId)
  }

  /** Every EN_ROUTE message in the queue answers an announcement that its ride is MATCHED to its driver. */
  lemma {:induction false} DepartureOrigin(actions: seq<Action>, m: DriverStatusMessage) returns (i: nat)
    requires Run(Init(), actions).Some? && m in Run(Init(), actions).value.status.queue && m.status == EN_ROUTE
    ensures i < |actions| && MatchSeen(actions, i, m.driverId, m.rideId)
    decreases |actions|
  {
    hide Next, Run, MatchSeen;
    if actions == [] {
      InitHasNoArrivals();
      assert false;
    } else {
      var last := |actions| - 1;
      var s, a, s' := Before(actions, last), actions[last], Run(Init(), actions).value;
      LastStep(actions);
      DepartureFrame(s, a, s', m);
      if m in s.status.queue {
        i := DepartureOrigin(actions[..last], m);
        MatchSeenInFront(actions, i, m.driverId, m.rideId);
      } else {
        i := last;
        MatchSeenNow(actions, m.driverId, m.rideId);
      }
    }
  }

  lemma MatchSeenInFront(actions: seq<Action>, i: nat, driverId: string, id: string)
    requires i < |actions| - 1 && Run(Init(), actions).Some? && Run(Init(), actions[..|actions| - 1]).Some?
    requires MatchSeen(actions[..|actions| - 1], i, driverId, id)
    ensures MatchSeen(actions, i, driverId, id)
  {
    hide Run, Before;
    BeforeInFront(actions, i);
  }

  lemma MatchSeenNow(actions: seq<Action>, driverId: string, id: string)
    requires actions != [] && Run(Init(), actions).Some? && actions[|actions| - 1] == DetailsTake(true)
    requires id != "" && driverId != ""
    requires var s := Before(actions, |actions| - 1);
             s.rideStatus != [] && s.rideStatus[0] == RideStatusMessage(id, Matched, driverId)
    ensures MatchSeen(actions, |actions| - 1, driverId, id)
  {
    hide Run, Before;
  }

  lemma DepartureFrame(s: State, a: Action, s': State, m: DriverStatusMessage)
    requires Next(s, a) == Some(s') && m in s'.status.queue && m.status == EN_ROUTE
    ensures || m in s.status.queue
            || (a == DetailsTake(true) && m.rideId != "" && m.driverId != "" && s.rideStatus != []
                && s.rideStatus[0] == RideStatusMessage(m.rideId, Matched, m.driverId))
  {
    hide CreateNext, TimerNext, CancelNext, ResponseNext, StatusNext, DriverNext;
    if a.CreateCommit? || a.CreatePublish? || a.CreateArm? || a.TimerFire? || a.CallbackRead? {
      CreateLeavesArrivals(s, a, s');
    } else if CancelStep(a) {
      CancelTouches(s, a, s');
    } else if ResponseAction(a) {
      ResponseTouches(s, a, s');
    } else if StatusAction(a) {
      ConsumerOnlyTakes(s, a, s');
    } else if DriverAction(a) {
      DriverDeparts(s, a, s', m);
    }
  }

  lemma DriverDeparts(s: State, a: Action, s': State, m: DriverStatusMessage)
    requires DriverAction(a) && DriverNext(s, a) == Some(s') && m in s'.status.queue && m.status == EN_ROUTE
    ensures || m in s.status.queue
            || (a == DetailsTake(true) && m.rideId != "" && m.driverId != "" && s.rideStatus != []
                && s.rideStatus[0] == RideStatusMessage(m.rideId, Matched, m.driverId))
  {
  }
}
