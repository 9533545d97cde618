/**
 When a ride that was cancelled or completed stays so, and when the timeout cancels. `UpdateRideStatus` never looks
 at the status it replaces (internal/ride/repository.go), so finality depends on the driver-status messages alone.
 */
module LifecycleFinality {
  import opened Prelude
  import opened RideStore
  import opened RideInvariant
  import opened Lifecycle
  import opened LifecycleInvariant
  import opened LifecycleSteps
  import opened LifecycleTheorems
  import opened LifecycleProgress
  import opened LifecycleRuns
  import opened LifecycleFrames

  predicate Terminal(status: Status) {
    status == Completed || status == Cancelled
  }

  /** The driver-status consumer gets its write for this ride through. */
  predicate WritesStatus(s: State, a: Action, id: string) {
    a.StatusCommit? && a.ok && s.status.queue != [] && s.status.queue[0].rideId == id
  }

  /**
   A report taken up for a terminal ride starts a write exactly if it is EN_ROUTE, ARRIVED or BUSY; otherwise it is
   acknowledged.
   */
  lemma ReportOnTerminalRide(s: State, now: int, s': State)
    requires Reachable(s) && StatusNext(s, StatusTake(true, now)) == Some(s')
    requires s.status.queue[0].rideId != "" && s.status.queue[0].rideId in s.db.rides
    requires Terminal(s.db.rides[s.status.queue[0].rideId].status)
    ensures var reported := s.status.queue[0].status;
            && (s'.status.pc.AtStatusWrite? <==> reported == EN_ROUTE || reported == ARRIVED || reported == BUSY)
            && (!s'.status.pc.AtStatusWrite? ==> s'.status.queue == s.status.queue[1..])
  {
  }

  lemma WriteMovesStatus(s: State, a: Action, s': State, id: string)
    requires StatusOk(s.db, s.status) && WritesStatus(s, a, id) && StatusNext(s, a) == Some(s')
    ensures id in s.db.rides && id in s'.db.rides && s'.db.rides[id].status != s.db.rides[id].status
  {
  }

  lemma FailedWriteMovesNothing(s: State, a: Action, s': State)
    requires a.StatusCommit? && !a.ok && StatusNext(s, a) == Some(s')
    ensures s'.db == s.db
  {
  }

  lemma OtherWriteMovesNothing(s: State, a: Action, s': State, id: string)
    requires a.StatusCommit? && a.ok && !WritesStatus(s, a, id) && StatusNext(s, a) == Some(s')
    ensures id in s'.db.rides <==> id in s.db.rides
    ensures id in s.db.rides ==> s'.db.rides[id] == s.db.rides[id]
  {
    hide WithStatus;
  }

  /** A settled row, whatever actor moves next, changes its status exactly if the driver-status consumer writes it. */
  lemma SettledStatusMovesExactly(s: State, a: Action, s': State, id: string)
    requires Inv(s) && Next(s, a) == Some(s') && id in s.db.rides && Settled(s.db.rides[id].status)
    ensures id in s'.db.rides && Settled(s'.db.rides[id].status)
    ensures s'.db.rides[id].status != s.db.rides[id].status <==> WritesStatus(s, a, id)
  {
    hide DbInv, CallsInv, StatusOk, FareOk, ResponseOk, MessagesInv, TimersInv, OrderInv, StatusNext;
    NextEvolves(s, a, s');
    if a.StatusCommit? {
      if WritesStatus(s, a, id) { WriteMovesStatus(s, a, s', id); }
      else if a.ok { OtherWriteMovesNothing(s, a, s', id); }
      else { FailedWriteMovesNothing(s, a, s'); }
    }
  }

  ghost predicate KeepsStatus(s: State, actions: seq<Action>, id: string)
    requires id in s.db.rides
    decreases |actions|
  {
    actions == [] || Next(s, actions[0]).None? ||
    var s' := Next(s, actions[0]).value;
    id in s'.db.rides && s'.db.rides[id].status == s.db.rides[id].status && KeepsStatus(s', actions[1..], id)
  }

  ghost predicate SomeWrite(s: State, actions: seq<Action>, id: string)
    decreases |actions|
  {
    actions != [] && Next(s, actions[0]).Some? &&
    (WritesStatus(s, actions[0], id) || SomeWrite(Next(s, actions[0]).value, actions[1..], id))
  }

  /** Along any run a terminal status is final exactly if no driver-status write of that ride comes through. */
  lemma {:induction false} FinalExactly(s: State, actions: seq<Action>, id: string)
    requires Inv(s) && Run(s, actions).Some? && id in s.db.rides && Terminal(s.db.rides[id].status)
    ensures KeepsStatus(s, actions, id) <==> !SomeWrite(s, actions, id)
    decreases |actions|
  {
    hide Next, Inv, WritesStatus;
    if actions != [] {
      var s' := Next(s, actions[0]).value;
      NextKeepsInv(s, actions[0], s');
      SettledStatusMovesExactly(s, actions[0], s', id);
      if !WritesStatus(s, actions[0], id) { FinalExactly(s', actions[1..], id); }
    }
  }

  // ----- finality by the reports alone

  /** A report that moves any terminal ride it names. */
  predicate Moving(m: DriverStatusMessage, id: string) {
    m.rideId == id && (m.status == EN_ROUTE || m.status == ARRIVED || m.status == BUSY)
  }

  /** The consumer has read this ride and is going to write it. */
  predicate Writing(s: State, id: string) {
    s.status.pc.AtStatusWrite? && s.status.queue != [] && s.status.queue[0].rideId == id
  }

  predicate TakesReport(s: State, a: Action, id: string) {
    a.StatusTake? && s.status.queue != [] && Moving(s.status.queue[0], id)
  }

  ghost predicate ReportTaken(s: State, actions: seq<Action>, id: string)
    decreases |actions|
  {
    actions != [] && Next(s, actions[0]).Some? &&
    (TakesReport(s, actions[0], id) || ReportTaken(Next(s, actions[0]).value, actions[1..], id))
  }

  /** What one action does to the status queue, and that only taking a message up starts a write. */
  lemma QueueFrame(s: State, a: Action, s': State)
    requires StatusOk(s.db, s.status) && Next(s, a) == Some(s')
    ensures || s'.status.queue == s.status.queue
            || (s.status.queue != [] && s'.status.queue == s.status.queue[1..])
            || exists m :: s'.status.queue == s.status.queue + [m]
    ensures s'.status.pc.AtStatusWrite? ==> s.status.queue != [] && s.status.queue <= s'.status.queue
    ensures s'.status.pc.AtStatusWrite? && !a.StatusTake? ==> s'.status.pc == s.status.pc
  {
    hide StatusDone, Decide, FinalFare, CreateNext, TimerNext, CancelNext, ResponseNext, StatusNext, DriverNext;
    if a.StatusTake? || a.StatusCommit? || a.StatusReread? || a.StatusPublish? {
      ConsumerFrame(s, a, s');
    } else if a.DriverPublish? || a.DetailsTake? || a.ArrivedRead? || a.ArrivedPublish? {
      DriverFrame(s, a, s');
    } else {
      ServiceLeavesQueue(s, a, s');
    }
  }

  lemma ConsumerFrame(s: State, a: Action, s': State)
    requires a.StatusTake? || a.StatusCommit? || a.StatusReread? || a.StatusPublish?
    requires StatusNext(s, a) == Some(s')
    ensures s.status.queue != []
    ensures s'.status.queue == s.status.queue || (s'.status.queue == s.status.queue[1..] && s'.status.pc.StatusIdle?)
    ensures s'.status.pc.AtStatusWrite? ==> a.StatusTake?
  {
    hide Decide, FinalFare, StatusTx;
  }

  /** Only the consumer and the driver service touch the status queue. */
  lemma ServiceLeavesQueue(s: State, a: Action, s': State)
    requires !a.StatusTake? && !a.StatusCommit? && !a.StatusReread? && !a.StatusPublish?
    requires !a.DriverPublish? && !a.DetailsTake? && !a.ArrivedRead? && !a.ArrivedPublish?
    requires Next(s, a) == Some(s')
    ensures s'.status == s.status
  {
    hide CreateNext, TimerNext, CancelNext, ResponseNext;
    if a.CreateCommit? || a.CreatePublish? || a.CreateArm? || a.TimerFire? || a.CallbackRead? {
      TimersLeaveQueue(s, a, s');
    } else if a.CancelRead? || a.CancelCommit? || a.CancelReread? || a.CancelClear? || a.CancelPublish? {
      CancelTouches(s, a, s');
    } else if a.ResponseTake? || a.ResponseReread? || a.ResponseClear? || a.ResponsePublish? {
      ResponseTouches(s, a, s');
    }
  }

  lemma TimersLeaveQueue(s: State, a: Action, s': State)
    requires a.CreateCommit? || a.CreatePublish? || a.CreateArm? || a.TimerFire? || a.CallbackRead?
    requires Next(s, a) == Some(s')
    ensures s'.status == s.status
  {
    hide CreateTx;
  }

  lemma DriverFrame(s: State, a: Action, s': State)
    requires a.DriverPublish? || a.DetailsTake? || a.ArrivedRead? || a.ArrivedPublish?
    requires DriverNext(s, a) == Some(s')
    ensures s'.status.pc == s.status.pc
    ensures s'.status.queue == s.status.queue || exists m :: s'.status.queue == s.status.queue + [m]
  {
  }

  /** Taking up a report that does not move a terminal ride starts no write of it. */
  lemma OtherReportsAreIgnored(s: State, a: Action, s': State, id: string)
    requires a.StatusTake? && StatusNext(s, a) == Some(s') && !TakesReport(s, a, id)
    requires id in s.db.rides && Terminal(s.db.rides[id].status)
    ensures !Writing(s', id)
  {
    hide FinalFare;
  }

  lemma StaysUnwritten(s: State, a: Action, s': State, id: string)
    requires Inv(s) && Next(s, a) == Some(s') && id in s.db.rides && Terminal(s.db.rides[id].status)
    requires !Writing(s, id) && !TakesReport(s, a, id)
    ensures !Writing(s', id) && !WritesStatus(s, a, id)
  {
    hide DbInv, CallsInv, FareOk, ResponseOk, MessagesInv, TimersInv, OrderInv, StatusOk;
    hide CreateNext, TimerNext, CancelNext, ResponseNext, DriverNext, StatusNext;
    QueueFrame(s, a, s');
    if a.StatusTake? { OtherReportsAreIgnored(s, a, s', id); }
    if a.StatusCommit? { CommitWrites(s, a, s'); }
  }

  lemma CommitWrites(s: State, a: Action, s': State)
    requires a.StatusCommit? && StatusNext(s, a) == Some(s')
    ensures s.status.pc.AtStatusWrite?
  {
  }

  /** As long as no EN_ROUTE, ARRIVED or BUSY report of it is taken up, a terminal ride keeps its status. */
  lemma {:induction false} FinalUnlessReported(s: State, actions: seq<Action>, id: string)
    requires Inv(s) && Run(s, actions).Some? && id in s.db.rides && Terminal(s.db.rides[id].status)
    requires !Writing(s, id) && !ReportTaken(s, actions, id)
    ensures KeepsStatus(s, actions, id)
    decreases |actions|
  {
    hide Next, Inv, WritesStatus, Writing, TakesReport;
    if actions != [] {
      var s' := Next(s, actions[0]).value;
      NextKeepsInv(s, actions[0], s');
      StaysUnwritten(s, actions[0], s', id);
      SettledStatusMovesExactly(s, actions[0], s', id);
      FinalUnlessReported(s', actions[1..], id);
    }
  }

  // ----- finality by what is sent

  /** A report that moves the ride is waiting, or being handled. */
  ghost predicate Pending(s: State, id: string) {
    exists k :: 0 <= k < |s.status.queue| && Moving(s.status.queue[k], id)
  }

  predicate SendsReport(s: State, s': State, id: string) {
    |s'.status.queue| > |s.status.queue| && Moving(s'.status.queue[|s'.status.queue| - 1], id)
  }

  ghost predicate ReportSent(s: State, actions: seq<Action>, id: string)
    decreases |actions|
  {
    actions != [] && Next(s, actions[0]).Some? &&
    var s' := Next(s, actions[0]).value;
    SendsReport(s, s', id) || ReportSent(s', actions[1..], id)
  }

  lemma StaysUnreported(s: State, a: Action, s': State, id: string)
    requires Inv(s) && Next(s, a) == Some(s') && !Pending(s, id) && !SendsReport(s, s', id)
    ensures !Pending(s', id)
  {
    hide DbInv, CallsInv, FareOk, ResponseOk, MessagesInv, TimersInv, OrderInv, StatusOk, Next, Moving;
    QueueFrame(s, a, s');
    forall k | 0 <= k < |s'.status.queue| ensures !Moving(s'.status.queue[k], id) {
      assert k < |s.status.queue| ==> !Moving(s.status.queue[k], id);
      if s.status.queue != [] && s'.status.queue == s.status.queue[1..] {
        assert !Moving(s.status.queue[k + 1], id);
      }
    }
  }

  /** A pending write of a terminal ride is on behalf of a report that moves it. */
  lemma WritingIsPending(s: State, id: string)
    requires StatusOk(s.db, s.status) && id in s.db.rides && Terminal(s.db.rides[id].status) && Writing(s, id)
    ensures Moving(s.status.queue[0], id) && Pending(s, id)
  {
    assert Moving(s.status.queue[0], id);
  }

  lemma {:induction false} FinalUnlessSent(s: State, actions: seq<Action>, id: string)
    requires Inv(s) && Run(s, actions).Some? && id in s.db.rides && Terminal(s.db.rides[id].status)
    requires !Pending(s, id) && !ReportSent(s, actions, id)
    ensures KeepsStatus(s, actions, id)
    decreases |actions|
  {
    hide Next, DbInv, CallsInv, FareOk, ResponseOk, MessagesInv, TimersInv, OrderInv, StatusOk, WritesStatus;
    hide SendsReport;
    if actions != [] {
      var s' := Next(s, actions[0]).value;
      if Writing(s, id) { WritingIsPending(s, id); }
      NextKeepsInv(s, actions[0], s');
      StaysUnwritten(s, actions[0], s', id);
      SettledStatusMovesExactly(s, actions[0], s', id);
      StaysUnreported(s, actions[0], s', id);
      FinalUnlessSent(s', actions[1..], id);
    }
  }

  lemma {:induction false} KeptToTheEnd(s: State, actions: seq<Action>, id: string)
    requires id in s.db.rides && Run(s, actions).Some? && KeepsStatus(s, actions, id)
    ensures id in Run(s, actions).value.db.rides
    ensures Run(s, actions).value.db.rides[id].status == s.db.rides[id].status
    decreases |actions|
  {
    hide Next;
    if actions != [] { KeptToTheEnd(Next(s, actions[0]).value, actions[1..], id); }
  }

  lemma {:induction false} ConsumerSendsNothing(s: State, actions: seq<Action>, id: string)
    requires Run(s, actions).Some? && forall a <- actions :: StatusAction(a)
    ensures !ReportSent(s, actions, id)
    decreases |actions|
  {
    hide StatusNext;
    if actions != [] {
      assert StatusAction(actions[0]);
      ConsumerFrame(s, actions[0], Next(s, actions[0]).value);
      ConsumerSendsNothing(Next(s, actions[0]).value, actions[1..], id);
    }
  }

  /**
   A report that moves the ride and is waiting anywhere in the queue can be carried through, and then it has moved.
   */
  lemma PendingReportMoves(s: State, id: string) returns (actions: seq<Action>)
    requires Inv(s) && id in s.db.rides && Terminal(s.db.rides[id].status) && id != "" && Pending(s, id)
    ensures Run(s, actions).Some? && !ReportSent(s, actions, id) && !KeepsStatus(s, actions, id)
  {
    hide Inv, Run, KeepsStatus, ReportSent, StatusAction;
    var k :| 0 <= k < |s.status.queue| && Moving(s.status.queue[k], id);
    actions := QueuedFinishes(s, k);
    ConsumerSendsNothing(s, actions, id);
    if KeepsStatus(s, actions, id) { KeptToTheEnd(s, actions, id); }
  }

  /**
   From a state on, a terminal status is final unless a further report is sent, exactly if no EN_ROUTE, ARRIVED or BUSY
   report of the ride is waiting or being handled.
   */
  lemma FinalUntilReportedExactly(s: State, id: string)
    requires Reachable(s) && id in s.db.rides && Terminal(s.db.rides[id].status) && id != ""
    ensures !Pending(s, id) <==>
              forall actions: seq<Action> ::
                Run(s, actions).Some? && !ReportSent(s, actions, id) ==> KeepsStatus(s, actions, id)
  {
    hide Inv, Run, KeepsStatus, ReportSent, Pending, Reachable;
    ReachableInv(s);
    if Pending(s, id) {
      var actions := PendingReportMoves(s, id);
    } else {
      forall actions: seq<Action> | Run(s, actions).Some? && !ReportSent(s, actions, id)
        ensures KeepsStatus(s, actions, id)
      {
        FinalUnlessSent(s, actions, id);
      }
    }
  }

  // ----- when the timeout cancels

  /**
   The callback's write cancels exactly if the log holds nothing after the request but possibly the match; it cancels
   a matched ride exactly if the match was committed last, however long after the callback looked.
   */
  lemma TimeoutCancelsExactly(s: State, id: string, now: int, s': State)
    requires Reachable(s) && Next(s, CancelCommit(TimerCall(id), true, now)) == Some(s')
    ensures EventsOf(s.db, id) != []
    ensures var log := EventsOf(s.db, id);
            && (EventsOf(s'.db, id) != log <==> |log| == 1 || (|log| == 2 && log[1].DriverMatched?))
            && (EventsOf(s'.db, id) != log ==>
                  && EventsOf(s'.db, id)[..|log|] == log && |EventsOf(s'.db, id)| == |log| + 1
                  && EventsOf(s'.db, id)[|log|].RideCancelled?
                  && (EventsOf(s'.db, id)[|log|].oldStatus == Matched <==> log[|log| - 1].DriverMatched?))
  {
    ReachableInv(s);
    var call := TimerCall(id);
    assert CallOk(s.db, call, s.calls[call]);
    assert RowOk(s.db.rides[id], s.db.log[id]);
    TimeoutCancelsLog(s, id, now, s');
  }

  lemma TimeoutCancelsLog(s: State, id: string, now: int, s': State)
    requires id in s.db.rides && id in s.db.log && RowOk(s.db.rides[id], s.db.log[id])
    requires TimerCall(id) in s.calls && s.calls[TimerCall(id)].rideId == id
    requires CancelNext(s, CancelCommit(TimerCall(id), true, now)) == Some(s')
    ensures var log := s.db.log[id];
            && log != []
            && (EventsOf(s'.db, id) != log <==> |log| == 1 || (|log| == 2 && log[1].DriverMatched?))
            && (EventsOf(s'.db, id) != log ==>
                  && EventsOf(s'.db, id)[..|log|] == log && |EventsOf(s'.db, id)| == |log| + 1
                  && EventsOf(s'.db, id)[|log|].RideCancelled?
                  && (EventsOf(s'.db, id)[|log|].oldStatus == Matched <==> log[|log| - 1].DriverMatched?))
  {
    hide Replay, RowFacts, RefundInRange;
    var ride, log := s.db.rides[id], s.db.log[id];
    var last := |log| - 1;
    LastStatus(ride, log);
    assert Linked(log, last);
    EarlyStatuses(log, ride.estimatedFare, last);
    if last > 0 { assert LegalEvent(log[last], ride.estimatedFare); }
  }

  /**
   From any state in which a callback may have seen REQUESTED to its write: it cancels a matched ride exactly if a match
   has been committed in between and nothing else of that ride, and an unmatched one exactly if nothing has.
   */
  lemma TimeoutCancelsOverRun(s: State, id: string, actions: seq<Action>, t: State, now: int, t': State)
    requires Reachable(s) && id in s.db.rides && s.db.rides[id].status == Requested
    requires Run(s, actions) == Some(t) && Next(t, CancelCommit(TimerCall(id), true, now)) == Some(t')
    ensures var before, found, after := EventsOf(s.db, id), EventsOf(t.db, id), EventsOf(t'.db, id);
            && before <= found <= after
            && (|after| > |found| && after[|found|].oldStatus == Matched
                <==> |found| == |before| + 1 && found[|before|].DriverMatched?)
            && (|after| > |found| && after[|found|].oldStatus == Requested <==> found == before)
  {
    hide Next, CallsInv, StatusOk, FareOk, ResponseOk, MessagesInv, TimersInv, OrderInv, RowFacts, Replay, Run;
    var commit := CancelCommit(TimerCall(id), true, now);
    ReachableInv(s);
    RunEvolves(s, actions, t);
    NextEvolves(t, commit, t');
    assert RowOk(s.db.rides[id], s.db.log[id]);
    LastStatus(s.db.rides[id], s.db.log[id]);
    EarlyStatuses(s.db.log[id], s.db.rides[id].estimatedFare, |s.db.log[id]| - 1);
    ReachableThen(s, actions, t);
    TimeoutCancelsExactly(t, id, now, t');
    CancelledFrom(t, id, now, t');
  }

  /** A cancellation takes a ride from REQUESTED or from MATCHED. */
  lemma CancelledFrom(s: State, id: string, now: int, s': State)
    requires Inv(s) && Next(s, CancelCommit(TimerCall(id), true, now)) == Some(s')
    ensures id in s.db.rides
    ensures EventsOf(s'.db, id) != EventsOf(s.db, id) ==>
              && |EventsOf(s'.db, id)| == |EventsOf(s.db, id)| + 1
              && var e := EventsOf(s'.db, id)[|EventsOf(s.db, id)|];
                 e.RideCancelled? && (e.oldStatus == Matched || e.oldStatus == Requested)
  {
    hide DbInv, StatusOk, FareOk, ResponseOk, MessagesInv, TimersInv, OrderInv;
    hide CreateNext, TimerNext, ResponseNext, StatusNext, DriverNext;
    assert CallOk(s.db, TimerCall(id), s.calls[TimerCall(id)]);
  }
}
