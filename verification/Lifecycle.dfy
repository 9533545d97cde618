/**
 The two services as one state machine (internal/ride/service.go, internal/ride/consumer.go,
 internal/ride/events.go, internal/driverlocation/service.go, internal/driverlocation/handler.go,
 internal/shared/messaging/consumer.go).

 One action is one SQL transaction or read, one mutex section, one publish, or one queue operation. A run is any
 sequence of enabled actions, so every interleaving of requests, timers and consumers is a run. `ok = false` is a
 failure of the repository or of a publish; `now` is whatever the clock of the acting process shows.
 */
module Lifecycle {
  import opened Prelude
  import opened Fare
  import opened RideStore

  /** Driver statuses of internal/driverlocation/status.go. */
  datatype DriverStatus = OFFLINE | AVAILABLE | EN_ROUTE | ARRIVED | BUSY

  datatype DriverStatusMessage = DriverStatusMessage(driverId: string, status: DriverStatus, rideId: string)

  datatype DriverResponse = DriverResponse(rideId: string, driverId: string, accepted: bool)

  datatype RideStatusMessage = RideStatusMessage(rideId: string, status: Status, driverId: string)

  /** CreateRide after its insert: first publish the request, then arm the matching timer. */
  datatype CreatePc = AtPublish | AtArm

  datatype CallId = TimerCall(rideId: string) | HttpCall(n: nat)

  /** A timer callback or a cancel request, by the next thing it does. */
  datatype CallPc =
    | AtCallbackGet(rideId: string)
    | AtCancelGet(rideId: string, passengerId: string, reason: string)
    | AtCancelWrite(rideId: string, seen: Status, refund: real, reason: string)
    | AtCancelReread(rideId: string)
    | AtCancelClear(rideId: string, ride: Ride)
    | AtCancelPublish(rideId: string, ride: Ride)

  datatype StatusPc =
    | StatusIdle
    | AtStatusWrite(newStatus: Status, fare: Option<real>, readAt: int)
    | AtStatusReread
    | AtStatusPublish(ride: Ride)

  datatype ResponsePc =
    | ResponseIdle
    | AtResponseReread
    | AtResponseClear(ride: Ride)
    | AtResponsePublish(ride: Ride)

  /**
   A consumer holds the message at the head of its queue until it acks; `commits` counts that message's transactions.
   */
  datatype StatusConsumer = StatusConsumer(queue: seq<DriverStatusMessage>, pc: StatusPc, commits: nat)

  datatype ResponseConsumer = ResponseConsumer(queue: seq<DriverResponse>, pc: ResponsePc, commits: nat)

  /** What has happened so far; no action depends on it. */
  datatype History = History(
    created: set<string>,                        // CreateRide has returned success
    abandoned: set<string>,                      // a timer callback ended on a repository failure
    handled: map<string, seq<DriverStatus>>)     // driver-status messages taken up, per ride, redeliveries included

  datatype State = State(
    db: Db,
    timers: map<string, bool>,                   // matchTimers; the flag is false once the timer has fired
    creating: map<string, CreatePc>,
    calls: map<CallId, CallPc>,
    status: StatusConsumer,
    response: ResponseConsumer,
    rideStatus: seq<RideStatusMessage>,          // the ride_status queue
    arrivals: map<nat, (string, string)>,        // accepted ARRIVED reports (driver, ride) not yet published
    history: History)

  datatype Action =
    | CreateCommit(id: string, passengerId: string, rideType: string, distanceKm: real)
    | CreatePublish(id: string, ok: bool)
    | CreateArm(id: string)
    | TimerFire(id: string)
    | CallbackRead(id: string, ok: bool)
    | CancelBegin(n: nat, id: string, passengerId: string, reason: string)
    | CancelRead(call: CallId, ok: bool)
    | CancelCommit(call: CallId, ok: bool, now: int)
    | CancelReread(call: CallId, ok: bool)
    | CancelClear(call: CallId)
    | CancelPublish(call: CallId, ok: bool)
    | ResponseArrive(response: DriverResponse)
    | ResponseTake(ok: bool, now: int)
    | ResponseReread(ok: bool)
    | ResponseClear
    | ResponsePublish(ok: bool)
    | DriverPublish(message: DriverStatusMessage)
    | StatusTake(ok: bool, now: int)
    | StatusCommit(ok: bool, now: int)
    | StatusReread(ok: bool)
    | StatusPublish(ok: bool)
    | DetailsTake(ok: bool)
    | ArrivedRead(n: nat, driverId: string, id: string)
    | ArrivedPublish(n: nat, ok: bool)

  function Init(): State {
    State(Db(map[], map[]), map[], map[], map[],
          StatusConsumer([], StatusIdle, 0), ResponseConsumer([], ResponseIdle, 0), [], map[],
          History({}, {}, map[]))
  }

  // ----- decisions made by the handlers

  /** `mapDriverStatusToRideStatus` with the AVAILABLE case of HandleDriverStatus; None leaves the ride alone. */
  function Target(reported: DriverStatus, current: Status): Option<Status> {
    match reported
    case EN_ROUTE => Some(EnRoute)
    case ARRIVED => Some(Arrived)
    case BUSY => Some(InProgress)
    case AVAILABLE => if current == InProgress then Some(Completed) else None
    case OFFLINE => None
  }

  /** The transition a driver-status message causes on a ride read with this status, if any. */
  function Decide(reported: DriverStatus, current: Status): Option<Status> {
    if Target(reported, current) == Some(current) then None else Target(reported, current)
  }

  /** `PublishRideStatus`: the message carries the status and driver of the row it was built from. */
  function StatusMessageFor(id: string, ride: Ride): RideStatusMessage {
    RideStatusMessage(id, ride.status, if ride.driverId.Some? then ride.driverId.value else "")
  }

  /** `shouldSendRideDetails`. */
  predicate ShouldSendRideDetails(m: RideStatusMessage) {
    m.status == Matched && m.rideId != "" && m.driverId != ""
  }

  const DEFAULT_REASON := "Cancelled by passenger"

  const TIMEOUT_REASON := "No driver found within matching timeout"

  // ----- actions of the ride service

  function EndCall(s: State, call: CallId): State {
    s.(calls := s.calls - {call})
  }

  /** A call that ends on a repository failure; for a timer callback this is recorded. */
  function FailCall(s: State, call: CallId): State {
    var ended := EndCall(s, call);
    if call.TimerCall? then ended.(history := s.history.(abandoned := s.history.abandoned + {call.rideId})) else ended
  }

  function Announce(s: State, id: string, ride: Ride, ok: bool): State {
    if ok then s.(rideStatus := s.rideStatus + [StatusMessageFor(id, ride)]) else s
  }

  function CreateNext(s: State, a: Action): Option<State>
    requires a.CreateCommit? || a.CreatePublish? || a.CreateArm?
  {
    match a
    case CreateCommit(id, passengerId, rideType, distanceKm) =>
      var quote := CalculateFareEstimate(rideType, distanceKm);
      if id == "" || id in s.db.rides || passengerId == "" || quote.Err? then None
      else Some(s.(db := CreateTx(s.db, id, NewRide(passengerId, rideType, distanceKm, quote.value.fare)),
                   creating := s.creating[id := AtPublish]))
    case CreatePublish(id, ok) =>
      if id !in s.creating || s.creating[id] != AtPublish then None
      else Some(s.(creating := if ok then s.creating[id := AtArm] else s.creating - {id}))
    case CreateArm(id) =>
      if id !in s.creating || s.creating[id] != AtArm then None
      else Some(s.(timers := s.timers[id := true], creating := s.creating - {id},
                   history := s.history.(created := s.history.created + {id})))
  }

  function TimerNext(s: State, a: Action): Option<State>
    requires a.TimerFire? || a.CallbackRead?
  {
    match a
    case TimerFire(id) =>
      if id !in s.timers || !s.timers[id] then None
      else Some(s.(timers := s.timers[id := false], calls := s.calls[TimerCall(id) := AtCallbackGet(id)]))
    case CallbackRead(id, ok) =>
      var call := TimerCall(id);
      if call !in s.calls || s.calls[call] != AtCallbackGet(id) then None
      else if !ok then Some(FailCall(s, call))
      else if id !in s.db.rides || s.db.rides[id].status != Requested then Some(EndCall(s, call))
      else Some(s.(calls := s.calls[call := AtCancelGet(id, "", TIMEOUT_REASON)]))
  }

  function CancelNext(s: State, a: Action): Option<State>
    requires a.CancelRead? || a.CancelCommit? || a.CancelReread? || a.CancelClear? || a.CancelPublish?
  {
    var call := a.call;
    if call !in s.calls then None
    else
      var pc := s.calls[call];
      match a
      case CancelRead(_, ok) =>
        if !pc.AtCancelGet? then None
        else if !ok then Some(FailCall(s, call))
        else if pc.rideId !in s.db.rides then Some(EndCall(s, call))
        else
          var ride := s.db.rides[pc.rideId];
          if pc.passengerId != "" && ride.passengerId != pc.passengerId then Some(EndCall(s, call))
          else Some(s.(calls := s.calls[call := AtCancelWrite(pc.rideId, ride.status,
                                                              CalculateRefund(ride.status, ride.estimatedFare),
                                                              pc.reason)]))
      case CancelCommit(_, ok, now) =>
        if !pc.AtCancelWrite? then None
        else if !ok then Some(FailCall(s, call))
        else
          (match CancelTx(s.db, pc.rideId, pc.reason, pc.refund, now)
           case Err(_) => Some(EndCall(s, call))
           case Ok(db) => Some(s.(db := db, calls := s.calls[call := AtCancelReread(pc.rideId)])))
      case CancelReread(_, ok) =>
        if !pc.AtCancelReread? then None
        else if !ok || pc.rideId !in s.db.rides then Some(EndCall(s, call))
        else Some(s.(calls := s.calls[call := AtCancelClear(pc.rideId, s.db.rides[pc.rideId])]))
      case CancelClear(_) =>
        if !pc.AtCancelClear? then None
        else Some(s.(timers := s.timers - {pc.rideId}, calls := s.calls[call := AtCancelPublish(pc.rideId, pc.ride)]))
      case CancelPublish(_, ok) =>
        if !pc.AtCancelPublish? then None
        else Some(EndCall(Announce(s, pc.rideId, pc.ride, ok), call))
  }

  function AckResponse(s: State): State
    requires s.response.queue != []
  {
    s.(response := ResponseConsumer(s.response.queue[1..], ResponseIdle, 0))
  }

  /** A nacked message stays at the head of its queue. */
  function NackResponse(s: State): State {
    s.(response := s.response.(pc := ResponseIdle))
  }

  predicate IgnoredResponse(m: DriverResponse) {
    !m.accepted || m.rideId == "" || m.driverId == ""
  }

  function ResponseNext(s: State, a: Action): Option<State>
    requires a.ResponseTake? || a.ResponseReread? || a.ResponseClear? || a.ResponsePublish?
  {
    if s.response.queue == [] then None
    else
      var m, pc := s.response.queue[0], s.response.pc;
      match a
      case ResponseTake(ok, now) =>
        if !pc.ResponseIdle? then None
        else if IgnoredResponse(m) then Some(AckResponse(s))
        else if !ok then Some(NackResponse(s))
        else
          (match MatchTx(s.db, m.rideId, m.driverId, now)
           case Err(_) => Some(AckResponse(s))
           case Ok(db) => Some(s.(db := db,
               response := ResponseConsumer(s.response.queue, AtResponseReread, s.response.commits + 1))))
      case ResponseReread(ok) =>
        if !pc.AtResponseReread? then None
        else if !ok || m.rideId !in s.db.rides then Some(NackResponse(s))
        else Some(s.(response := s.response.(pc := AtResponseClear(s.db.rides[m.rideId]))))
      case ResponseClear =>
        if !pc.AtResponseClear? then None
        else Some(s.(timers := s.timers - {m.rideId}, response := s.response.(pc := AtResponsePublish(pc.ride))))
      case ResponsePublish(ok) =>
        if !pc.AtResponsePublish? then None
        else Some(AckResponse(Announce(s, m.rideId, pc.ride, ok)))
  }

  function AckStatus(s: State): State
    requires s.status.queue != []
  {
    s.(status := StatusConsumer(s.status.queue[1..], StatusIdle, 0))
  }

  function NackStatus(s: State): State {
    s.(status := s.status.(pc := StatusIdle))
  }

  function HandledOf(s: State, id: string): seq<DriverStatus> {
    if id in s.history.handled then s.history.handled[id] else []
  }

  /** Records that a message has been taken up. */
  function Handling(s: State, m: DriverStatusMessage): State {
    s.(history := s.history.(handled := s.history.handled[m.rideId := HandledOf(s, m.rideId) + [m.status]]))
  }

  /** What the consumer does once it has read the ride: acknowledge, go on to write, or return an error. */
  function Decided(c: StatusConsumer, ride: Ride, now: int): StatusConsumer
    requires c.queue != []
  {
    match Decide(c.queue[0].status, ride.status)
    case None => StatusConsumer(c.queue[1..], StatusIdle, 0)
    case Some(newStatus) =>
      if newStatus != Completed then c.(pc := AtStatusWrite(newStatus, None, now))
      else
        match FinalFare(ride, now)
        case Err(_) => c.(pc := StatusIdle)
        case Ok(fare) => c.(pc := AtStatusWrite(newStatus, Some(fare), now))
  }

  function StatusNext(s: State, a: Action): Option<State>
    requires a.StatusTake? || a.StatusCommit? || a.StatusReread? || a.StatusPublish?
  {
    if s.status.queue == [] then None
    else
      var m, pc := s.status.queue[0], s.status.pc;
      match a
      case StatusTake(ok, now) =>
        if !pc.StatusIdle? then None
        else if m.rideId == "" then Some(AckStatus(s))
        else if !ok then Some(NackStatus(s))
        else if m.rideId !in s.db.rides then Some(AckStatus(s))
        else Some(Handling(s, m).(status := Decided(s.status, s.db.rides[m.rideId], now)))
      case StatusCommit(ok, now) =>
        if !pc.AtStatusWrite? then None
        else if !ok then Some(NackStatus(s))
        else
          (match StatusTx(s.db, m.rideId, pc.newStatus, m.driverId, pc.fare, now)
           case Err(_) => Some(NackStatus(s))
           case Ok(db) => Some(s.(db := db,
               status := StatusConsumer(s.status.queue, AtStatusReread, s.status.commits + 1))))
      case StatusReread(ok) =>
        if !pc.AtStatusReread? then None
        else if !ok || m.rideId !in s.db.rides then Some(NackStatus(s))
        else Some(s.(status := s.status.(pc := AtStatusPublish(s.db.rides[m.rideId]))))
      case StatusPublish(ok) =>
        if !pc.AtStatusPublish? then None
        else Some(AckStatus(Announce(s, m.rideId, pc.ride, ok)))
  }

  // ----- actions of the driver service

  function Enqueue(s: State, m: DriverStatusMessage): State {
    s.(status := s.status.(queue := s.status.queue + [m]))
  }

  function DriverNext(s: State, a: Action): Option<State>
    requires a.DriverPublish? || a.DetailsTake? || a.ArrivedRead? || a.ArrivedPublish?
  {
    match a
    case DriverPublish(m) =>                     // HandleOnline, HandleOffline, HandleStart, HandleComplete
      if m.status == EN_ROUTE || m.status == ARRIVED then None else Some(Enqueue(s, m))
    case DetailsTake(ok) =>                      // handleRideStatus
      if s.rideStatus == [] then None
      else
        var m, rest := s.rideStatus[0], s.(rideStatus := s.rideStatus[1..]);
        if !ShouldSendRideDetails(m) then Some(rest)
        else if !ok then Some(s)
        else Some(Enqueue(rest, DriverStatusMessage(m.driverId, EN_ROUTE, m.rideId)))
    case ArrivedRead(n, driverId, id) =>         // HandleWSStatusUpdate, up to GetAssignedRideStatus
      if id == "" || n in s.arrivals || id !in s.db.rides || s.db.rides[id].driverId != Some(driverId) then None
      else if s.db.rides[id].status != Matched && s.db.rides[id].status != EnRoute then None
      else Some(s.(arrivals := s.arrivals[n := (driverId, id)]))
    case ArrivedPublish(n, ok) =>
      if n !in s.arrivals then None
      else
        var done := s.(arrivals := s.arrivals - {n});
        Some(if ok then Enqueue(done, DriverStatusMessage(s.arrivals[n].0, ARRIVED, s.arrivals[n].1)) else done)
  }

  // ----- runs

  /** The state after an action, or None when the action is not enabled. */
  function Next(s: State, a: Action): Option<State> {
    if a.CreateCommit? || a.CreatePublish? || a.CreateArm? then CreateNext(s, a)
    else if a.TimerFire? || a.CallbackRead? then TimerNext(s, a)
    else if a.CancelBegin? then
      if HttpCall(a.n) in s.calls then None
      else Some(s.(calls := s.calls[HttpCall(a.n) :=
                              AtCancelGet(a.id, a.passengerId, if a.reason == "" then DEFAULT_REASON else a.reason)]))
    else if a.CancelRead? || a.CancelCommit? || a.CancelReread? || a.CancelClear? || a.CancelPublish? then
      CancelNext(s, a)
    else if a.ResponseArrive? then Some(s.(response := s.response.(queue := s.response.queue + [a.response])))
    else if a.ResponseTake? || a.ResponseReread? || a.ResponseClear? || a.ResponsePublish? then ResponseNext(s, a)
    else if a.StatusTake? || a.StatusCommit? || a.StatusReread? || a.StatusPublish? then StatusNext(s, a)
    else DriverNext(s, a)
  }

  /** The state at the end of a run, or None when some action of it is not enabled. */
  function Run(s: State, actions: seq<Action>): Option<State>
    decreases |actions|
  {
    if actions == [] then Some(s)
    else
      match Next(s, actions[0])
      case None => None
      case Some(s') => Run(s', actions[1..])
  }

  lemma {:induction false} RunAppend(s: State, first: seq<Action>, second: seq<Action>)
    ensures Run(s, first + second) == if Run(s, first).None? then None else Run(Run(s, first).value, second)
    decreases |first|
  {
    if first == [] {
      assert [] + second == second;
    } else {
      assert (first + second)[1..] == first[1..] + second;
      if Next(s, first[0]).Some? { RunAppend(Next(s, first[0]).value, first[1..], second); }
    }
  }
}
