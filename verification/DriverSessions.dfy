/**
 Driver sessions and their money (internal/driverlocation/repository.go, internal/driverlocation/handler.go,
 migrations/05_driver_sessions.sql). Amounts of the DECIMAL(10,2) column are whole hundredths.
 */
module DriverSessions {
  import opened Prelude
  import opened Fare

  const DRIVER_EARN_RATIO := 0.8

  const NANOSECONDS_PER_HOUR := 3_600_000_000_000

  /** A row of `driver_sessions`, in insertion order of the table. */
  datatype Session = Session(driver: string, startedAt: int, endedAt: Option<int>, rides: nat, earnings: int)

  datatype Summary = Summary(durationHours: real, rides: nat, earnings: int)

  /** HandleOnline, HandleOffline and HandleComplete with the fare (in hundredths) it looked up. */
  datatype Op = Online(driver: string, at: int) | Offline(driver: string, at: int) | Complete(driver: string, fare: nat)

  predicate OpenOf(row: Session, driver: string) {
    row.driver == driver && row.endedAt.None?
  }

  /** The driver's open row with the latest start time; of equally old ones the newer row. */
  function LatestOpen(rows: seq<Session>, driver: string): (r: Option<nat>)
    ensures r.Some? ==> r.value < |rows| && OpenOf(rows[r.value], driver)
    ensures r.Some? ==> forall i :: 0 <= i < |rows| && OpenOf(rows[i], driver) ==>
              rows[i].startedAt <= rows[r.value].startedAt
    ensures r.None? ==> forall i :: 0 <= i < |rows| ==> !OpenOf(rows[i], driver)
  {
    if rows == [] then None
    else
      var n := |rows| - 1;
      var before := LatestOpen(rows[..n], driver);
      if OpenOf(rows[n], driver) && (before.None? || rows[before.value].startedAt <= rows[n].startedAt) then Some(n)
      else before
  }

  /** The earnings total plus 0.8 of the fare, as stored with two decimals. */
  function Credit(total: int, fare: nat): int {
    var sum := RoundHalfAway(total as real + fare as real * DRIVER_EARN_RATIO);
    sum.Floor
  }

  function Step(rows: seq<Session>, op: Op): seq<Session> {
    match op
    case Online(driver, at) => rows + [Session(driver, at, None, 0, 0)]
    case Offline(driver, at) =>
      (match LatestOpen(rows, driver)
       case None => rows
       case Some(i) => rows[i := rows[i].(endedAt := Some(at))])
    case Complete(driver, fare) =>
      match LatestOpen(rows, driver)
      case None => rows
      case Some(i) => rows[i := rows[i].(rides := rows[i].rides + 1, earnings := Credit(rows[i].earnings, fare))]
  }

  class Sessions {
    var rows: seq<Session>

    constructor ()
      ensures rows == []
    {
      rows := [];
    }

    method FindLatestOpen(driver: string) returns (found: Option<nat>)
      ensures found == LatestOpen(rows, driver)
    {
      found := None;
      for i := 0 to |rows|
        invariant found == LatestOpen(rows[..i], driver)
      {
        assert rows[..i + 1][..i] == rows[..i];
        if OpenOf(rows[i], driver) && (found.None? || rows[found.value].startedAt <= rows[i].startedAt) {
          found := Some(i);
        }
      }
      assert rows[..|rows|] == rows;
    }

    method StartDriverSession(driver: string, now: int) returns (id: nat)
      modifies this
      ensures rows == Step(old(rows), Online(driver, now)) && id == |old(rows)|
    {
      id := |rows|;
      rows := rows + [Session(driver, now, None, 0, 0)];
    }

    /**
     `now` is the database's time, `clock` the process's a moment later. Without an open session the summary is zero.
     */
    method EndDriverSession(driver: string, now: int, clock: int) returns (summary: Summary)
      modifies this
      ensures rows == Step(old(rows), Offline(driver, now))
      ensures match LatestOpen(old(rows), driver)
              case None => summary == Summary(0.0, 0, 0)
              case Some(i) =>
                && summary.rides == old(rows)[i].rides && summary.earnings == old(rows)[i].earnings
                && summary.durationHours * 3_600_000_000_000.0 == (clock - old(rows)[i].startedAt) as real
    {
      var found := FindLatestOpen(driver);
      if found.None? { return Summary(0.0, 0, 0); }
      var row := rows[found.value];
      rows := rows[found.value := row.(endedAt := Some(now))];
      return Summary((clock - row.startedAt) as real / NANOSECONDS_PER_HOUR as real, row.rides, row.earnings);
    }

    method RecordCompletedRide(driver: string, fare: nat)
      modifies this
      ensures rows == Step(old(rows), Complete(driver, fare))
    {
      var found := FindLatestOpen(driver);
      if found.Some? {
        var row := rows[found.value];
        rows := rows[found.value := row.(rides := row.rides + 1, earnings := Credit(row.earnings, fare))];
      }
    }
  }

  // ----- money

  /** The driver's share of one fare, rounded to hundredths. */
  function Share(fare: nat): int {
    Credit(0, fare)
  }

  lemma ShareIsClose(fare: nat)
    ensures fare as real * 0.8 - 0.4 <= Share(fare) as real <= fare as real * 0.8 + 0.4
  {
    var q, r := fare / 5, fare % 5;
    assert fare as real * 0.8 == 4.0 * q as real + 0.8 * r as real;
    assert Share(fare) == (4.0 * q as real + 0.8 * r as real + 0.5).Floor;
    assert r == 0 || r == 1 || r == 2 || r == 3 || r == 4;
    if r == 0 { assert Share(fare) == 4 * q; }
    else if r == 1 { assert Share(fare) == 4 * q + 1; }
    else if r == 2 { assert Share(fare) == 4 * q + 2; }
    else if r == 3 { assert Share(fare) == 4 * q + 2; }
    else { assert Share(fare) == 4 * q + 3; }
  }

  /** Rounding the running total is the same as adding the rounded share. */
  lemma CreditAddsShare(total: nat, fare: nat)
    ensures Credit(total, fare) == total + Share(fare) && Share(fare) >= 0
  {
    var x := fare as real * 0.8;
    assert (total as real + x + 0.5).Floor == total + (x + 0.5).Floor;
  }

  function Shares(fares: seq<nat>): int {
    if fares == [] then 0 else Shares(fares[..|fares| - 1]) + Share(fares[|fares| - 1])
  }

  function Unrounded(fares: seq<nat>): real {
    if fares == [] then 0.0 else Unrounded(fares[..|fares| - 1]) + fares[|fares| - 1] as real * 0.8
  }

  /** Rounding costs or gains at most four tenths of a hundredth per ride. */
  lemma {:induction false} SharesAreClose(fares: seq<nat>)
    ensures Unrounded(fares) - 0.4 * |fares| as real <= Shares(fares) as real
    ensures Shares(fares) as real <= Unrounded(fares) + 0.4 * |fares| as real
    ensures Shares(fares) >= 0
    decreases |fares|
  {
    if fares != [] {
      SharesAreClose(fares[..|fares| - 1]);
      ShareIsClose(fares[|fares| - 1]);
      CreditAddsShare(0, fares[|fares| - 1]);
    }
  }

  // ----- the reference: stacks of open sessions, each with the fares completed in it

  /**
   What a session should be: who drives, from when, until when if it is over, and every fare completed while it was on
   top.
   */
  datatype Entry = Entry(driver: string, from: int, until: Option<int>, fares: seq<nat>)

  /** The driver's most recently opened session that is still open. */
  function Top(entries: seq<Entry>, driver: string): (r: Option<nat>)
    ensures r.Some? ==> r.value < |entries| && entries[r.value].driver == driver && entries[r.value].until.None?
    ensures r.Some? ==> forall i :: r.value < i < |entries| ==> !(entries[i].driver == driver && entries[i].until.None?)
    ensures r.None? ==> forall i :: 0 <= i < |entries| ==> !(entries[i].driver == driver && entries[i].until.None?)
  {
    if entries == [] then None
    else if entries[|entries| - 1].driver == driver && entries[|entries| - 1].until.None? then Some(|entries| - 1)
    else Top(entries[..|entries| - 1], driver)
  }

  function RefStep(entries: seq<Entry>, op: Op): seq<Entry> {
    match op
    case Online(driver, at) => entries + [Entry(driver, at, None, [])]
    case Offline(driver, at) =>
      (match Top(entries, driver) case None => entries case Some(i) => entries[i := entries[i].(until := Some(at))])
    case Complete(driver, fare) =>
      match Top(entries, driver)
      case None => entries
      case Some(i) => entries[i := entries[i].(fares := entries[i].fares + [fare])]
  }

  function Rows(ops: seq<Op>): seq<Session> {
    if ops == [] then [] else Step(Rows(ops[..|ops| - 1]), ops[|ops| - 1])
  }

  function Reference(ops: seq<Op>): seq<Entry> {
    if ops == [] then [] else RefStep(Reference(ops[..|ops| - 1]), ops[|ops| - 1])
  }

  /** The database clock does not go backwards between two session starts. */
  ghost predicate StartsInOrder(ops: seq<Op>) {
    forall i, j :: 0 <= i < j < |ops| && ops[i].Online? && ops[j].Online? ==> ops[i].at <= ops[j].at
  }

  ghost predicate Matches(row: Session, entry: Entry) {
    && row.driver == entry.driver && row.startedAt == entry.from && row.endedAt == entry.until
    && row.rides == |entry.fares| && row.earnings == Shares(entry.fares)
  }

  ghost predicate MatchesAll(rows: seq<Session>, entries: seq<Entry>) {
    |rows| == |entries| && forall i :: 0 <= i < |rows| ==> Matches(rows[i], entries[i])
  }

  ghost predicate Ascending(rows: seq<Session>) {
    forall i, j :: 0 <= i < j < |rows| ==> rows[i].startedAt <= rows[j].startedAt
  }

  /** Picking by start time picks the top of the stack. */
  lemma {:induction false} LatestIsTop(rows: seq<Session>, entries: seq<Entry>, driver: string)
    requires MatchesAll(rows, entries) && Ascending(rows)
    ensures LatestOpen(rows, driver) == Top(entries, driver)
    decreases |rows|
  {
    if rows != [] {
      var n := |rows| - 1;
      assert Matches(rows[n], entries[n]);
      LatestIsTop(rows[..n], entries[..n], driver);
    }
  }

  lemma SharesAppend(fares: seq<nat>, fare: nat)
    ensures Shares(fares + [fare]) == Shares(fares) + Share(fare)
  {
    assert (fares + [fare])[..|fares|] == fares;
  }

  /** A start time in the table is an earlier one or the one just given. */
  ghost predicate StartsFrom(rows: seq<Session>, before: seq<Session>, op: Op) {
    forall r <- rows :: (exists q :: q in before && q.startedAt == r.startedAt) || (op.Online? && r.startedAt == op.at)
  }

  lemma CompleteMatches(row: Session, entry: Entry, fare: nat)
    requires Matches(row, entry)
    ensures Matches(row.(rides := row.rides + 1, earnings := Credit(row.earnings, fare)),
              entry.(fares := entry.fares + [fare]))
  {
    SharesAppend(entry.fares, fare);
    SharesAreClose(entry.fares);
    CreditAddsShare(Shares(entry.fares), fare);
  }

  lemma UpdateMatches(rows: seq<Session>, entries: seq<Entry>, i: nat, row: Session, entry: Entry)
    requires MatchesAll(rows, entries) && Ascending(rows) && i < |rows|
    requires Matches(row, entry) && row.startedAt == rows[i].startedAt
    ensures MatchesAll(rows[i := row], entries[i := entry]) && Ascending(rows[i := row])
    ensures forall r <- rows[i := row] :: exists q :: q in rows && q.startedAt == r.startedAt
  {
    hide Matches;
    forall r | r in rows[i := row] ensures exists q :: q in rows && q.startedAt == r.startedAt {
      var k :| 0 <= k < |rows| && rows[i := row][k] == r;
      assert rows[k] in rows && rows[k].startedAt == r.startedAt;
    }
  }

  lemma StepMatches(rows: seq<Session>, entries: seq<Entry>, op: Op)
    requires MatchesAll(rows, entries) && Ascending(rows)
    requires op.Online? ==> forall r <- rows :: r.startedAt <= op.at
    ensures MatchesAll(Step(rows, op), RefStep(entries, op)) && Ascending(Step(rows, op))
    ensures StartsFrom(Step(rows, op), rows, op)
  {
    hide Credit, Shares;
    LatestIsTop(rows, entries, op.driver);
    var top := Top(entries, op.driver);
    match op
    case Online(driver, at) => OnlineMatches(rows, entries, op);
    case Offline(driver, at) =>
      if top.Some? {
        var i := top.value;
        assert Matches(rows[i], entries[i]);
        UpdateMatches(rows, entries, i, rows[i].(endedAt := Some(at)), entries[i].(until := Some(at)));
      }
    case Complete(driver, fare) =>
      if top.Some? {
        var i := top.value;
        assert Matches(rows[i], entries[i]);
        CompleteMatches(rows[i], entries[i], fare);
        UpdateMatches(rows, entries, i,
            rows[i].(rides := rows[i].rides + 1, earnings := Credit(rows[i].earnings, fare)),
                      entries[i].(fares := entries[i].fares + [fare]));
      }
  }

  lemma OnlineMatches(rows: seq<Session>, entries: seq<Entry>, op: Op)
    requires MatchesAll(rows, entries) && Ascending(rows)
    requires op.Online? && forall r <- rows :: r.startedAt <= op.at
    ensures MatchesAll(Step(rows, op), RefStep(entries, op)) && Ascending(Step(rows, op))
              && StartsFrom(Step(rows, op), rows, op)
  {
    assert Matches(Session(op.driver, op.at, None, 0, 0), Entry(op.driver, op.at, None, []));
    hide Matches;
  }

  ghost predicate StartedBy(rows: seq<Session>, ops: seq<Op>) {
    forall r <- rows :: exists k :: 0 <= k < |ops| && ops[k].Online? && ops[k].at == r.startedAt
  }

  /**
   Over any run the table is the reference: rides and money of each session are those of the fares completed on top of
   the stack.
   */
  lemma {:induction false} TableMatchesReference(ops: seq<Op>)
    requires StartsInOrder(ops)
    ensures MatchesAll(Rows(ops), Reference(ops)) && Ascending(Rows(ops)) && StartedBy(Rows(ops), ops)
    decreases |ops|
  {
    hide Matches, Step, RefStep, LatestOpen, Top;
    if ops != [] {
      var n := |ops| - 1;
      var front := ops[..n];
      TableMatchesReference(front);
      if ops[n].Online? {
        forall r | r in Rows(front) ensures r.startedAt <= ops[n].at {
          var k :| 0 <= k < n && front[k].Online? && front[k].at == r.startedAt;
          assert ops[k] == front[k];
        }
      }
      StepMatches(Rows(front), Reference(front), ops[n]);
      forall r | r in Rows(ops) ensures exists k :: 0 <= k <= n && ops[k].Online? && ops[k].at == r.startedAt {
        if !(ops[n].Online? && r.startedAt == ops[n].at) {
          var q :| q in Rows(front) && q.startedAt == r.startedAt;
          var k :| 0 <= k < n && front[k].Online? && front[k].at == q.startedAt;
          assert ops[k] == front[k];
        }
      }
    }
  }

  /**
   In every reachable table each session's earnings differ from 0.8 of its fares by at most 0.004 (0.4 hundredths) per
   ride.
   */
  lemma SessionMoneyConserved(ops: seq<Op>, i: nat)
    requires StartsInOrder(ops) && i < |Rows(ops)|
    ensures |Reference(ops)| == |Rows(ops)|
    ensures var row, entry := Rows(ops)[i], Reference(ops)[i];
            && row.driver == entry.driver && row.startedAt == entry.from && row.endedAt == entry.until
            && row.rides == |entry.fares| && row.earnings == Shares(entry.fares)
            && Unrounded(entry.fares) - 0.4 * row.rides as real <= row.earnings as real
            && row.earnings as real <= Unrounded(entry.fares) + 0.4 * row.rides as real
  {
    TableMatchesReference(ops);
    assert Matches(Rows(ops)[i], Reference(ops)[i]);
    SharesAreClose(Reference(ops)[i].fares);
  }

  /** Nested sessions end last-in first-out: no open session of the driver started after the one that is closed. */
  lemma OfflineEndsNewest(ops: seq<Op>, driver: string)
    requires StartsInOrder(ops)
    ensures match LatestOpen(Rows(ops), driver)
            case None => forall i :: 0 <= i < |Rows(ops)| ==> !OpenOf(Rows(ops)[i], driver)
            case Some(i) =>
              && OpenOf(Rows(ops)[i], driver)
              && forall j :: i < j < |Rows(ops)| ==> !OpenOf(Rows(ops)[j], driver)
  {
    TableMatchesReference(ops);
    LatestIsTop(Rows(ops), Reference(ops), driver);
    forall j | 0 <= j < |Rows(ops)|
      ensures OpenOf(Rows(ops)[j], driver) <==> Reference(ops)[j].driver == driver && Reference(ops)[j].until.None?
    {
      assert Matches(Rows(ops)[j], Reference(ops)[j]);
    }
  }

  // ----- counting

  function TotalRides(rows: seq<Session>): nat {
    if rows == [] then 0 else TotalRides(rows[..|rows| - 1]) + rows[|rows| - 1].rides
  }

  /** RecordCompletedRide calls made while the driver had a session open. */
  function Recorded(ops: seq<Op>): nat {
    if ops == [] then 0
    else
      var n := |ops| - 1;
      Recorded(ops[..n]) + if ops[n].Complete? && LatestOpen(Rows(ops[..n]), ops[n].driver).Some? then 1 else 0
  }

  lemma {:induction false} TotalRidesUpdate(rows: seq<Session>, i: nat, row: Session)
    requires i < |rows|
    ensures TotalRides(rows[i := row]) == TotalRides(rows) - rows[i].rides + row.rides
    decreases |rows|
  {
    var n := |rows| - 1;
    if i == n {
      assert rows[i := row][..n] == rows[..n];
    } else {
      assert rows[i := row][..n] == rows[..n][i := row];
      TotalRidesUpdate(rows[..n], i, row);
    }
  }

  lemma StepTotal(rows: seq<Session>, op: Op)
    ensures TotalRides(Step(rows, op))
         == TotalRides(rows) + if op.Complete? && LatestOpen(rows, op.driver).Some? then 1 else 0
  {
    hide Credit, LatestOpen;
    match op
    case Online(driver, at) => assert (rows + [Session(driver, at, None, 0, 0)])[..|rows|] == rows;
    case Offline(driver, at) =>
      var i := LatestOpen(rows, driver);
      if i.Some? { TotalRidesUpdate(rows, i.value, rows[i.value].(endedAt := Some(at))); }
    case Complete(driver, fare) =>
      var i := LatestOpen(rows, driver);
      if i.Some? {
        var row := rows[i.value];
        TotalRidesUpdate(rows, i.value, row.(rides := row.rides + 1, earnings := Credit(row.earnings, fare)));
      }
  }

  /** No ride is lost and none is counted twice. */
  lemma {:induction false} RidesConserved(ops: seq<Op>)
    ensures TotalRides(Rows(ops)) == Recorded(ops)
    decreases |ops|
  {
    hide Step, LatestOpen, TotalRides;
    if ops == [] {
      NoRides();
    } else {
      var n := |ops| - 1;
      RidesConserved(ops[..n]);
      StepTotal(Rows(ops[..n]), ops[n]);
    }
  }

  lemma NoRides()
    ensures TotalRides([]) == 0
  {
  }
}
