/** The per-driver limit on location updates (internal/driverlocation/handler.go). Times are nanoseconds. */
module LocationRate {

  const RATE_LIMIT := 3_000_000_000

  /** One critical section of the limiter: a request to update, or the unconditional mark made by going online. */
  datatype Op = Allow(driver: string, at: int) | Mark(driver: string, at: int)

  function Permitted(last: map<string, int>, driver: string, now: int): bool {
    driver !in last || now - last[driver] >= RATE_LIMIT
  }

  function Step(last: map<string, int>, op: Op): map<string, int> {
    if op.Mark? || Permitted(last, op.driver, op.at) then last[op.driver := op.at] else last
  }

  class Limiter {
    var lastLocation: map<string, int>

    constructor ()
      ensures lastLocation == map[]
    {
      lastLocation := map[];
    }

    method AllowLocationUpdate(driver: string, now: int) returns (allowed: bool)
      modifies this
      ensures allowed == Permitted(old(lastLocation), driver, now)
      ensures lastLocation == Step(old(lastLocation), Allow(driver, now))
    {
      if driver in lastLocation && now - lastLocation[driver] < RATE_LIMIT {
        return false;
      }
      lastLocation := lastLocation[driver := now];
      return true;
    }

    method MarkLocationUpdated(driver: string, now: int)
      modifies this
      ensures lastLocation == Step(old(lastLocation), Mark(driver, now))
    {
      lastLocation := lastLocation[driver := now];
    }
  }

  // ----- runs

  function After(ops: seq<Op>): map<string, int> {
    if ops == [] then map[] else Step(After(ops[..|ops| - 1]), ops[|ops| - 1])
  }

  /** Whether the i-th operation was an update let through or a mark. */
  predicate Granted(ops: seq<Op>, i: nat)
    requires i < |ops|
  {
    ops[i].Mark? || Permitted(After(ops[..i]), ops[i].driver, ops[i].at)
  }

  ghost predicate Monotone(ops: seq<Op>) {
    forall i, j :: 0 <= i < j < |ops| ==> ops[i].at <= ops[j].at
  }

  /** Dropping the last operation changes nothing about the earlier ones. */
  lemma GrantedInFront(ops: seq<Op>, j: nat)
    requires j < |ops| - 1
    ensures Granted(ops, j) == Granted(ops[..|ops| - 1], j)
  {
    assert ops[..|ops| - 1][..j] == ops[..j];
  }

  lemma AfterLast(ops: seq<Op>)
    requires ops != []
    ensures var n := |ops| - 1;
            After(ops) == if Granted(ops, n) then After(ops[..n])[ops[n].driver := ops[n].at] else After(ops[..n])
  {
  }

  /** The map holds the time of the driver's latest granted operation, which no earlier one exceeds. */
  lemma {:induction false} LastIsLatest(ops: seq<Op>, driver: string)
    requires Monotone(ops)
    ensures driver in After(ops) ==>
              exists j :: 0 <= j < |ops| && ops[j].driver == driver && Granted(ops, j)
                  && ops[j].at == After(ops)[driver]
    ensures forall j :: 0 <= j < |ops| && ops[j].driver == driver && Granted(ops, j) ==>
              driver in After(ops) && ops[j].at <= After(ops)[driver]
    decreases |ops|
  {
    hide Granted, After;
    if ops == [] {
      NothingAfter(driver);
    } else {
      var n := |ops| - 1;
      var front := ops[..n];
      LastIsLatest(front, driver);
      AfterLast(ops);
      forall j | 0 <= j < n ensures Granted(ops, j) == Granted(front, j) { GrantedInFront(ops, j); }
      if driver in After(front) {
        var j :| 0 <= j < n && front[j].driver == driver && Granted(front, j) && front[j].at == After(front)[driver];
        assert ops[j] == front[j] && Granted(ops, j);
      }
    }
  }

  lemma NothingAfter(driver: string)
    ensures driver !in After([])
  {
  }

  /** An update is let through exactly when nothing was granted to that driver less than three seconds earlier. */
  lemma LimiterEqualsHistory(ops: seq<Op>, i: nat)
    requires Monotone(ops) && i < |ops| && ops[i].Allow?
    ensures Granted(ops, i) <==>
              forall j :: 0 <= j < i && ops[j].driver == ops[i].driver && Granted(ops, j) ==>
                  ops[i].at - ops[j].at >= 3_000_000_000
  {
    var past := ops[..i];
    LastIsLatest(past, ops[i].driver);
    forall j | 0 <= j < i ensures Granted(ops, j) == Granted(past, j) && past[j] == ops[j] {
      assert past[..j] == ops[..j];
    }
    if ops[i].driver in After(past) {
      var j :| 0 <= j < i && past[j].driver == ops[i].driver && Granted(past, j)
          && past[j].at == After(past)[ops[i].driver];
      assert Granted(ops, j) && ops[j].at == past[j].at;
    }
  }

  // ----- rate bound

  predicate Counts(ops: seq<Op>, i: nat, driver: string, lo: int, hi: int)
    requires i < |ops|
  {
    ops[i].Allow? && ops[i].driver == driver && lo <= ops[i].at <= hi && Granted(ops, i)
  }

  /** Updates of a driver let through within [lo, hi] among the first n operations. */
  function CountAllowed(ops: seq<Op>, n: nat, driver: string, lo: int, hi: int): nat
    requires n <= |ops|
  {
    if n == 0 then 0 else CountAllowed(ops, n - 1, driver, lo, hi) + if Counts(ops, n - 1, driver, lo, hi) then 1 else 0
  }

  /** The allowed updates of a window are spaced: the k-th comes at least 3(k-1) seconds after the window opens. */
  lemma {:induction false} Spacing(ops: seq<Op>, n: nat, driver: string, lo: int, hi: int) returns (last: nat)
    requires Monotone(ops) && n <= |ops|
    ensures CountAllowed(ops, n, driver, lo, hi) > 0 ==>
              && last < n && Counts(ops, last, driver, lo, hi)
              && (CountAllowed(ops, n, driver, lo, hi) - 1) * RATE_LIMIT <= ops[last].at - lo
    decreases n
  {
    last := 0;
    if n > 0 {
      last := Spacing(ops, n - 1, driver, lo, hi);
      if Counts(ops, n - 1, driver, lo, hi) {
        LimiterEqualsHistory(ops, n - 1);
        last := n - 1;
      }
    }
  }

  /** Any closed window of length L contains at most L / 3 s + 1 allowed updates of a driver. */
  lemma WindowBound(ops: seq<Op>, driver: string, lo: int, hi: int)
    requires Monotone(ops) && lo <= hi
    ensures CountAllowed(ops, |ops|, driver, lo, hi) <= (hi - lo) / 3_000_000_000 + 1
  {
    var last := Spacing(ops, |ops|, driver, lo, hi);
  }

  // ----- independence

  function Only(ops: seq<Op>, driver: string): seq<Op> {
    if ops == [] then []
    else if ops[|ops| - 1].driver == driver then Only(ops[..|ops| - 1], driver) + [ops[|ops| - 1]]
    else Only(ops[..|ops| - 1], driver)
  }

  /** A driver gets the answers it would get if no other driver had ever called. */
  lemma {:induction false} DriversAreIndependent(ops: seq<Op>, driver: string, now: int)
    ensures driver in After(ops) <==> driver in After(Only(ops, driver))
    ensures driver in After(ops) ==> After(ops)[driver] == After(Only(ops, driver))[driver]
    ensures Permitted(After(ops), driver, now) == Permitted(After(Only(ops, driver)), driver, now)
    decreases |ops|
  {
    if ops != [] {
      var n := |ops| - 1;
      DriversAreIndependent(ops[..n], driver, ops[n].at);
      if ops[n].driver == driver {
        var own := Only(ops[..n], driver);
        assert (own + [ops[n]])[..|own|] == own;
      }
    }
  }
}
