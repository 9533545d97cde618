/**
 The matcher's pending-offer protocol (internal/driverlocation/matching.go).

 Any number of MatchRide goroutines offer a ride to their candidates one after the other. Each offer has its own
 one-slot channel, reachable through the shared `pending` map while the offer is open; inbound responses look the
 channel up under the mutex and send to it later, without the mutex. One action is one mutex section, one channel
 operation, one publish or the passage of time.
 */
module Matching {
  import opened Prelude

  const OFFER_TIMEOUT := 30_000_000_000   // nanoseconds

  const MAX_CANDIDATES := 5

  datatype RideResponse = RideResponse(offerId: string, accepted: bool)

  /** Why an offer ended. */
  datatype Answer = Unreachable | Answered(response: RideResponse) | TimedOut | Abandoned

  datatype Tried = Tried(offerId: string, channel: nat, answer: Answer)

  /** A one-slot channel: what is in it, and every send attempted on it since it was made for `offerId`. */
  datatype Channel = Channel(offerId: string, buffer: seq<RideResponse>, attempts: seq<RideResponse>)

  datatype MatchPc =
    | AtCandidate                                               // head of the candidate loop
    | AtSend(offerId: string, channel: nat)                     // registered, offer not yet sent
    | AtSelect(offerId: string, channel: nat, since: int)       // waiting for response, timeout or cancellation
    | AtRemove(offerId: string, channel: nat, answer: Answer)   // the deferred removal
    | AtPublish                                                 // onMatchSuccess
    | AtEnd

  datatype Call = Call(rideId: string, candidates: seq<string>, tried: seq<Tried>, pc: MatchPc, waited: int)

  datatype Published = Published(call: nat, rideId: string, driverId: string)

  datatype State = State(
    clock: int,
    calls: map<nat, Call>,
    pending: map<string, nat>,
    channels: map<nat, Channel>,
    inbound: map<nat, (nat, RideResponse)>,     // responses that have found their channel and not yet sent
    issued: set<string>,                        // offer ids generated so far; they are random and never repeat
    published: seq<Published>)

  datatype Action =
    | Begin(call: nat, rideId: string, candidates: seq<string>)
    | Register(call: nat, offerId: string, channel: nat)
    | SendOffer(call: nat, reachable: bool)
    | Receive(call: nat)
    | Expire(call: nat)
    | Abandon(call: nat)
    | Remove(call: nat)
    | Exhaust(call: nat)
    | Publish(call: nat, ok: bool)
    | LookUp(n: nat, response: RideResponse)
    | Deliver(n: nat)
    | Tick(elapsed: int)

  function Init(clock: int): State {
    State(clock, map[], map[], map[], map[], {}, [])
  }

  predicate Accepted(answer: Answer) {
    answer.Answered? && answer.response.accepted
  }

  function SetCall(s: State, k: nat, c: Call): State {
    s.(calls := s.calls[k := c])
  }

  /** Leaving the select after waiting since `since`. */
  function Leave(s: State, k: nat, c: Call, answer: Answer): State
    requires c.pc.AtSelect?
  {
    SetCall(s, k, c.(pc := AtRemove(c.pc.offerId, c.pc.channel, answer), waited := c.waited + (s.clock - c.pc.since)))
  }

  /** A timeout that is due runs before more time passes. */
  predicate MayPass(s: State, elapsed: int) {
    elapsed >= 0 && forall k <- s.calls :: s.calls[k].pc.AtSelect? ==>
        s.clock + elapsed <= s.calls[k].pc.since + OFFER_TIMEOUT
  }

  function CallNext(s: State, a: Action): Option<State>
    requires !a.Begin? && !a.LookUp? && !a.Deliver? && !a.Tick?
  {
    if a.call !in s.calls then None
    else
      var k, c := a.call, s.calls[a.call];
      match a
      case Register(_, offerId, channel) =>
        if !c.pc.AtCandidate? || |c.tried| >= |c.candidates| || offerId in s.issued || channel in s.channels then None
        else Some(SetCall(s, k, c.(pc := AtSend(offerId, channel)))
                  .(pending := s.pending[offerId := channel],
                      channels := s.channels[channel := Channel(offerId, [], [])],
                    issued := s.issued + {offerId}))
      case SendOffer(_, reachable) =>
        if !c.pc.AtSend? then None
        else if reachable then Some(SetCall(s, k, c.(pc := AtSelect(c.pc.offerId, c.pc.channel, s.clock))))
        else Some(SetCall(s, k, c.(pc := AtRemove(c.pc.offerId, c.pc.channel, Unreachable))))
      case Receive(_) =>
        if !c.pc.AtSelect? || c.pc.channel !in s.channels || s.channels[c.pc.channel].buffer == [] then None
        else
          var ch := s.channels[c.pc.channel];
          var channels := s.channels[c.pc.channel := ch.(buffer := ch.buffer[1..])];
          Some(Leave(s, k, c, Answered(ch.buffer[0])).(channels := channels))
      case Expire(_) =>
        if !c.pc.AtSelect? || s.clock < c.pc.since + OFFER_TIMEOUT then None else Some(Leave(s, k, c, TimedOut))
      case Abandon(_) =>
        if !c.pc.AtSelect? then None else Some(Leave(s, k, c, Abandoned))
      case Remove(_) =>
        if !c.pc.AtRemove? then None
        else
          var tried := c.tried + [Tried(c.pc.offerId, c.pc.channel, c.pc.answer)];
          var next := if Accepted(c.pc.answer) then AtPublish else AtCandidate;
          Some(SetCall(s, k, c.(tried := tried, pc := next)).(pending := s.pending - {c.pc.offerId}))
      case Exhaust(_) =>
        if !c.pc.AtCandidate? || |c.tried| < |c.candidates| then None
        else Some(SetCall(s, k, c.(pc := AtEnd)))
      case Publish(_, ok) =>
        if !c.pc.AtPublish? || !(0 < |c.tried| <= |c.candidates|) then None
        else
          var message := Published(k, c.rideId, c.candidates[|c.tried| - 1]);
          Some(SetCall(s, k, c.(pc := AtEnd)).(published := if ok then s.published + [message] else s.published))
  }

  function Next(s: State, a: Action): Option<State> {
    match a
    case Begin(k, rideId, candidates) =>
      if k in s.calls || |candidates| > MAX_CANDIDATES then None
      else Some(SetCall(s, k, Call(rideId, candidates, [], AtCandidate, 0)))
    case LookUp(n, response) =>                 // HandleDriverResponse under the mutex; late responses are dropped
      if n in s.inbound then None
      else if response.offerId !in s.pending then Some(s)
      else Some(s.(inbound := s.inbound[n := (s.pending[response.offerId], response)]))
    case Deliver(n) =>                          // the non-blocking send
      if n !in s.inbound || s.inbound[n].0 !in s.channels then None
      else
        var (channel, response) := s.inbound[n];
        var ch := s.channels[channel];
        var ch' := ch.(attempts := ch.attempts + [response], buffer := if ch.buffer == [] then [response]
            else ch.buffer);
        Some(s.(inbound := s.inbound - {n}, channels := s.channels[channel := ch']))
    case Tick(elapsed) => if MayPass(s, elapsed) then Some(s.(clock := s.clock + elapsed)) else None
    case _ => CallNext(s, a)
  }

  function Run(s: State, actions: seq<Action>): Option<State>
    decreases |actions|
  {
    if actions == [] then Some(s)
    else match Next(s, actions[0]) case None => None case Some(s') => Run(s', actions[1..])
  }

  // ----- the invariant

  predicate Open(pc: MatchPc) {
    pc.AtSend? || pc.AtSelect? || pc.AtRemove?
  }

  /** Every send on a channel is a response to the offer the channel was made for; it keeps at most one. */
  ghost predicate ChannelOk(ch: Channel) {
    && |ch.buffer| <= 1
    && (forall r <- ch.attempts :: r.offerId == ch.offerId)
    && (forall r <- ch.buffer :: r in ch.attempts)
  }

  /** Nothing has been taken from the channel yet, so it holds the first response sent. */
  ghost predicate Unread(ch: Channel) {
    ch.buffer == if ch.attempts == [] then [] else [ch.attempts[0]]
  }

  /** A recorded answer is the first response sent on the offer's own channel. */
  ghost predicate AnswerOk(channels: map<nat, Channel>, offerId: string, channel: nat, answer: Answer) {
    && channel in channels && channels[channel].offerId == offerId
    && (answer.Answered? ==> channels[channel].attempts != [] && answer.response == channels[channel].attempts[0])
  }

  ghost predicate CallOk(channels: map<nat, Channel>, clock: int, c: Call) {
    && |c.tried| <= |c.candidates| <= MAX_CANDIDATES
    && (forall t <- c.tried :: AnswerOk(channels, t.offerId, t.channel, t.answer))
    && (forall i :: 0 <= i < |c.tried| - 1 ==> !Accepted(c.tried[i].answer))
    && (c.tried != [] && Accepted(c.tried[|c.tried| - 1].answer) ==> c.pc.AtPublish? || c.pc.AtEnd?)
    && (c.pc.AtPublish? ==> c.tried != [] && Accepted(c.tried[|c.tried| - 1].answer))
    && (c.pc.AtEnd? ==> |c.tried| == |c.candidates| || (c.tried != [] && Accepted(c.tried[|c.tried| - 1].answer)))
    && (Open(c.pc) ==>
          |c.tried| < |c.candidates| && c.pc.channel in channels && channels[c.pc.channel].offerId == c.pc.offerId)
    && (c.pc.AtSend? || c.pc.AtSelect? ==> Unread(channels[c.pc.channel]))
    && (c.pc.AtRemove? ==> AnswerOk(channels, c.pc.offerId, c.pc.channel, c.pc.answer))
    && (c.pc.AtSelect? ==> c.pc.since <= clock <= c.pc.since + OFFER_TIMEOUT)
    && 0 <= c.waited <= OFFER_TIMEOUT * (|c.tried| + if c.pc.AtRemove? then 1 else 0)
    && OFFER_TIMEOUT * (TimedOuts(c.tried) + if c.pc.AtRemove? && c.pc.answer.TimedOut? then 1 else 0) <= c.waited
  }

  /** Offers that ended without a response in time. */
  function TimedOuts(tried: seq<Tried>): nat {
    if tried == [] then 0
    else TimedOuts(tried[..|tried| - 1]) + if tried[|tried| - 1].answer.TimedOut? then 1 else 0
  }

  ghost predicate CallsInv(s: State) {
    forall k <- s.calls :: CallOk(s.channels, s.clock, s.calls[k])
  }

  ghost predicate ChannelsInv(s: State) {
    && (forall c <- s.channels :: ChannelOk(s.channels[c]) && s.channels[c].offerId in s.issued)
    && (forall n <- s.inbound ::
          s.inbound[n].0 in s.channels && s.inbound[n].1.offerId == s.channels[s.inbound[n].0].offerId)
  }

  ghost predicate OpenFor(s: State, k: nat, offerId: string) {
    k in s.calls && Open(s.calls[k].pc) && s.calls[k].pc.offerId == offerId
  }

  /** `pending` is exactly the open offers, each leading to its own channel. */
  ghost predicate PendingInv(s: State) {
    && (forall k <- s.calls :: Open(s.calls[k].pc) ==>
          s.calls[k].pc.offerId in s.pending && s.pending[s.calls[k].pc.offerId] == s.calls[k].pc.channel)
    && (forall o <- s.pending :: o in s.issued && exists k :: OpenFor(s, k, o))
    && (forall o, j, k :: OpenFor(s, j, o) && OpenFor(s, k, o) ==> j == k)
    && (forall o <- s.pending :: s.pending[o] in s.channels && s.channels[s.pending[o]].offerId == o)
  }

  /** A published match names the last candidate tried by its call. */
  ghost predicate PublishedOk(s: State, p: Published) {
    && p.call in s.calls
    && var c := s.calls[p.call];
    && c.pc.AtEnd? && c.rideId == p.rideId && 0 < |c.tried| <= |c.candidates|
    && p.driverId == c.candidates[|c.tried| - 1] && Accepted(c.tried[|c.tried| - 1].answer)
  }

  ghost predicate PublishedInv(s: State) {
    && (forall p <- s.published :: PublishedOk(s, p))
    && (forall i, j :: 0 <= i < j < |s.published| ==> s.published[i].call != s.published[j].call)
  }

  ghost predicate Inv(s: State) {
    CallsInv(s) && ChannelsInv(s) && PendingInv(s) && PublishedInv(s)
  }

  // ----- preservation

  /** Channels keep their offer and only gain attempts. */
  ghost predicate ChannelsGrow(before: map<nat, Channel>, after: map<nat, Channel>) {
    forall c <- before :: c in after && after[c].offerId == before[c].offerId && before[c].attempts <= after[c].attempts
  }

  lemma CallStable(before: map<nat, Channel>, after: map<nat, Channel>, clock: int, clock': int, c: Call)
    requires CallOk(before, clock, c) && ChannelsGrow(before, after) && clock <= clock'
    requires c.pc.AtSend? || c.pc.AtSelect? ==> Unread(after[c.pc.channel])
    requires c.pc.AtSelect? ==> clock' <= c.pc.since + OFFER_TIMEOUT
    ensures CallOk(after, clock', c)
  {
    forall t | t in c.tried ensures AnswerOk(after, t.offerId, t.channel, t.answer) {
      assert AnswerOk(before, t.offerId, t.channel, t.answer);
    }
  }

  lemma OpenChannelsDistinct(s: State, j: nat, k: nat)
    requires CallsInv(s) && PendingInv(s) && j in s.calls && k in s.calls && j != k
    requires Open(s.calls[j].pc) && Open(s.calls[k].pc)
    ensures s.calls[j].pc.channel != s.calls[k].pc.channel
  {
    assert CallOk(s.channels, s.clock, s.calls[j]) && CallOk(s.channels, s.clock, s.calls[k]);
    if s.calls[j].pc.channel == s.calls[k].pc.channel {
      assert OpenFor(s, j, s.calls[j].pc.offerId) && OpenFor(s, k, s.calls[j].pc.offerId);
    }
  }

  lemma NextChannels(s: State, a: Action, s': State)
    requires ChannelsInv(s) && PendingInv(s) && Next(s, a) == Some(s')
    ensures ChannelsInv(s') && ChannelsGrow(s.channels, s'.channels)
  {
    hide ChannelsInv, PendingInv, ChannelsGrow, Next;
    if a.Register? { RegisterChannels(s, a, s'); }
    else if a.Receive? { ReceiveChannels(s, a, s'); }
    else if a.Deliver? { DeliverChannels(s, a, s'); }
    else if a.LookUp? { LookUpChannels(s, a, s'); }
    else { SameChannels(s, a, s'); }
  }

  lemma RegisterChannels(s: State, a: Action, s': State)
    requires ChannelsInv(s) && a.Register? && Next(s, a) == Some(s')
    ensures ChannelsInv(s') && ChannelsGrow(s.channels, s'.channels)
  {
  }

  lemma ReceiveChannels(s: State, a: Action, s': State)
    requires ChannelsInv(s) && a.Receive? && Next(s, a) == Some(s')
    ensures ChannelsInv(s') && ChannelsGrow(s.channels, s'.channels)
  {
    assert ChannelOk(s.channels[s.calls[a.call].pc.channel]);
  }

  lemma DeliverChannels(s: State, a: Action, s': State)
    requires ChannelsInv(s) && a.Deliver? && Next(s, a) == Some(s')
    ensures ChannelsInv(s') && ChannelsGrow(s.channels, s'.channels)
  {
    var (channel, response) := s.inbound[a.n];
    assert ChannelOk(s.channels[channel]);
    assert ChannelOk(s'.channels[channel]);
  }

  lemma LookUpChannels(s: State, a: Action, s': State)
    requires ChannelsInv(s) && PendingInv(s) && a.LookUp? && Next(s, a) == Some(s')
    ensures ChannelsInv(s') && ChannelsGrow(s.channels, s'.channels)
  {
  }

  lemma SameChannels(s: State, a: Action, s': State)
    requires ChannelsInv(s) && Next(s, a) == Some(s')
    requires !a.Register? && !a.Receive? && !a.Deliver? && !a.LookUp?
    ensures ChannelsInv(s') && ChannelsGrow(s.channels, s'.channels)
  {
    assert s'.channels == s.channels && s'.inbound == s.inbound && s'.issued == s.issued by { hide ChannelsInv; }
  }

  predicate CallAction(a: Action) {
    !a.Begin? && !a.LookUp? && !a.Deliver? && !a.Tick?
  }

  /** The call that acts. */
  lemma ActingCall(s: State, a: Action, s': State)
    requires CallAction(a) && Next(s, a) == Some(s') && a.call in s.calls
    requires CallOk(s.channels, s.clock, s.calls[a.call]) && ChannelsGrow(s.channels, s'.channels)
    requires a.Receive? ==> Open(s.calls[a.call].pc)
    ensures a.call in s'.calls && CallOk(s'.channels, s'.clock, s'.calls[a.call])
  {
    hide CallOk, ChannelsGrow;
    match a
    case Register(_, _, _) => StartCall(s, a, s');
    case SendOffer(_, _) => StartCall(s, a, s');
    case Receive(_) => ReceiveCall(s, a, s');
    case Expire(_) => LeaveCall(s, a, s');
    case Abandon(_) => LeaveCall(s, a, s');
    case Remove(_) => RemoveCall(s, a, s');
    case Exhaust(_) => EndCall(s, a, s');
    case Publish(_, _) => EndCall(s, a, s');
  }

  lemma TriedStable(before: map<nat, Channel>, after: map<nat, Channel>, tried: seq<Tried>)
    requires ChannelsGrow(before, after) && forall t <- tried :: AnswerOk(before, t.offerId, t.channel, t.answer)
    ensures forall t <- tried :: AnswerOk(after, t.offerId, t.channel, t.answer)
  {
    forall t | t in tried ensures AnswerOk(after, t.offerId, t.channel, t.answer) {
      assert AnswerOk(before, t.offerId, t.channel, t.answer);
    }
  }

  lemma StartCall(s: State, a: Action, s': State)
    requires (a.Register? || a.SendOffer?) && Next(s, a) == Some(s')
    requires CallOk(s.channels, s.clock, s.calls[a.call]) && ChannelsGrow(s.channels, s'.channels)
    ensures CallOk(s'.channels, s'.clock, s'.calls[a.call])
  {
    hide ChannelsGrow, AnswerOk;
    TriedStable(s.channels, s'.channels, s.calls[a.call].tried);
    if a.SendOffer? {
      var pc := s.calls[a.call].pc;
      assert !Accepted(Unreachable);
      assert AnswerOk(s'.channels, pc.offerId, pc.channel, Unreachable) by {
        Unanswered(s, a);
      }
    }
  }

  lemma Unanswered(s: State, a: Action)
    requires a.SendOffer? && a.call in s.calls && s.calls[a.call].pc.AtSend?
              && CallOk(s.channels, s.clock, s.calls[a.call])
    ensures AnswerOk(s.channels, s.calls[a.call].pc.offerId, s.calls[a.call].pc.channel, Unreachable)
  {
  }

  lemma ReceiveCall(s: State, a: Action, s': State)
    requires a.Receive? && Next(s, a) == Some(s')
    requires CallOk(s.channels, s.clock, s.calls[a.call]) && ChannelsGrow(s.channels, s'.channels)
    ensures CallOk(s'.channels, s'.clock, s'.calls[a.call])
  {
    hide ChannelsGrow;
    TriedStable(s.channels, s'.channels, s.calls[a.call].tried);
  }

  lemma LeaveCall(s: State, a: Action, s': State)
    requires (a.Expire? || a.Abandon?) && Next(s, a) == Some(s')
    requires CallOk(s.channels, s.clock, s.calls[a.call])
    ensures CallOk(s'.channels, s'.clock, s'.calls[a.call])
  {
  }

  lemma TimedOutsAppend(tried: seq<Tried>, next: Tried)
    ensures TimedOuts(tried + [next]) == TimedOuts(tried) + if next.answer.TimedOut? then 1 else 0
  {
    assert (tried + [next])[..|tried|] == tried;
  }

  lemma RemoveCall(s: State, a: Action, s': State)
    requires a.Remove? && Next(s, a) == Some(s')
    requires CallOk(s.channels, s.clock, s.calls[a.call])
    ensures CallOk(s'.channels, s'.clock, s'.calls[a.call])
  {
    hide AnswerOk, Unread, TimedOuts;
    var c, c' := s.calls[a.call], s'.calls[a.call];
    var tried := Tried(c.pc.offerId, c.pc.channel, c.pc.answer);
    assert c.tried != [] ==> !Accepted(c.tried[|c.tried| - 1].answer);
    assert c'.tried == c.tried + [tried];
    TimedOutsAppend(c.tried, tried);
  }

  lemma EndCall(s: State, a: Action, s': State)
    requires (a.Exhaust? || a.Publish?) && Next(s, a) == Some(s')
    requires CallOk(s.channels, s.clock, s.calls[a.call])
    ensures CallOk(s'.channels, s'.clock, s'.calls[a.call])
  {
    hide AnswerOk, Unread;
  }

  lemma NextCalls(s: State, a: Action, s': State)
    requires CallsInv(s) && PendingInv(s) && Next(s, a) == Some(s') && ChannelsGrow(s.channels, s'.channels)
    ensures CallsInv(s')
  {
    hide PendingInv, Next, CallOk, ChannelsGrow;
    forall k | k in s'.calls ensures CallOk(s'.channels, s'.clock, s'.calls[k]) {
      if k !in s.calls {
        NewCall(s, a, s', k);
      } else {
        assert CallOk(s.channels, s.clock, s.calls[k]);
        if CallAction(a) && k == a.call {
          if a.Receive? { ReceiverOpen(s, a, s'); }
          ActingCall(s, a, s');
        } else {
          OtherCall(s, a, s', k);
          CallStable(s.channels, s'.channels, s.clock, s'.clock, s.calls[k]);
        }
      }
    }
  }

  lemma NewCall(s: State, a: Action, s': State, k: nat)
    requires Next(s, a) == Some(s') && k in s'.calls && k !in s.calls
    ensures CallOk(s'.channels, s'.clock, s'.calls[k])
  {
    hide AnswerOk, Unread;
  }

  /** A call that does not act keeps its record, and its unread channel stays unread. */
  lemma OtherCall(s: State, a: Action, s': State, k: nat)
    requires CallsInv(s) && PendingInv(s) && Next(s, a) == Some(s') && k in s.calls
    requires CallAction(a) ==> k != a.call
    ensures k in s'.calls && s'.calls[k] == s.calls[k] && s.clock <= s'.clock
    ensures s.calls[k].pc.AtSelect? ==> s'.clock <= s.calls[k].pc.since + OFFER_TIMEOUT
    ensures s.calls[k].pc.AtSend? || s.calls[k].pc.AtSelect? ==>
              s.calls[k].pc.channel in s'.channels && Unread(s'.channels[s.calls[k].pc.channel])
  {
    hide PendingInv, Next, CallOk;
    assert CallOk(s.channels, s.clock, s.calls[k]);
    OtherRecord(s, a, s', k);
    if s.calls[k].pc.AtSend? || s.calls[k].pc.AtSelect? {
      if a.Receive? { ReceiverOpen(s, a, s'); OpenChannelsDistinct(s, a.call, k); }
      OtherChannel(s, a, s', s.calls[k]);
    }
  }

  lemma ReceiverOpen(s: State, a: Action, s': State)
    requires a.Receive? && Next(s, a) == Some(s')
    ensures a.call in s.calls && Open(s.calls[a.call].pc)
  {
  }

  lemma OtherRecord(s: State, a: Action, s': State, k: nat)
    requires Next(s, a) == Some(s') && k in s.calls && CallOk(s.channels, s.clock, s.calls[k])
    requires CallAction(a) ==> k != a.call
    ensures k in s'.calls && s'.calls[k] == s.calls[k] && s.clock <= s'.clock
    ensures s.calls[k].pc.AtSelect? ==> s'.clock <= s.calls[k].pc.since + OFFER_TIMEOUT
  {
    hide AnswerOk, Unread;
  }

  lemma OtherChannel(s: State, a: Action, s': State, c: Call)
    requires Next(s, a) == Some(s') && CallOk(s.channels, s.clock, c) && (c.pc.AtSend? || c.pc.AtSelect?)
    requires a.Receive? ==> a.call in s.calls && Open(s.calls[a.call].pc) && s.calls[a.call].pc.channel != c.pc.channel
    ensures c.pc.channel in s'.channels && Unread(s'.channels[c.pc.channel])
  {
    hide AnswerOk;
  }

  lemma NextPending(s: State, a: Action, s': State)
    requires CallsInv(s) && PendingInv(s) && Next(s, a) == Some(s') && ChannelsGrow(s.channels, s'.channels)
    ensures PendingInv(s')
  {
    hide PendingInv, ChannelsGrow, Next;
    if a.Register? { RegisterPending(s, a, s'); }
    else if a.Remove? { RemovePending(s, a, s'); }
    else { SamePending(s, a, s'); }
  }

  lemma RegisterPending(s: State, a: Action, s': State)
    requires PendingInv(s) && a.Register? && Next(s, a) == Some(s')
    ensures PendingInv(s')
  {
    forall o | o in s'.pending ensures o in s'.issued && exists k :: OpenFor(s', k, o) {
      if o in s.pending {
        var k :| OpenFor(s, k, o);
        assert OpenFor(s', k, o);
      } else {
        assert OpenFor(s', a.call, o);
      }
    }
    forall o, j, k | OpenFor(s', j, o) && OpenFor(s', k, o) ensures j == k {
      assert j == a.call || OpenFor(s, j, o);
      assert k == a.call || OpenFor(s, k, o);
    }
  }

  lemma RemovePending(s: State, a: Action, s': State)
    requires PendingInv(s) && a.Remove? && Next(s, a) == Some(s')
    ensures PendingInv(s')
  {
    var removed := s.calls[a.call].pc.offerId;
    assert OpenFor(s, a.call, removed);
    forall k | k in s'.calls && Open(s'.calls[k].pc)
      ensures s'.calls[k].pc.offerId in s'.pending && s'.pending[s'.calls[k].pc.offerId] == s'.calls[k].pc.channel
    {
      assert OpenFor(s, k, s.calls[k].pc.offerId);
    }
    forall o | o in s'.pending ensures o in s'.issued && exists k :: OpenFor(s', k, o) {
      var k :| OpenFor(s, k, o);
      assert OpenFor(s', k, o);
    }
    forall o, j, k | OpenFor(s', j, o) && OpenFor(s', k, o) ensures j == k {
      assert OpenFor(s, j, o) && OpenFor(s, k, o);
    }
  }

  /** Other actions neither open nor close an offer. */
  lemma SamePending(s: State, a: Action, s': State)
    requires PendingInv(s) && Next(s, a) == Some(s') && !a.Register? && !a.Remove?
              && ChannelsGrow(s.channels, s'.channels)
    ensures PendingInv(s')
  {
    hide Next;
    OffersUnchanged(s, a, s');
    forall o | o in s'.pending ensures exists k :: OpenFor(s', k, o) {
      var k :| OpenFor(s, k, o);
      assert OpenFor(s', k, o);
    }
    forall o, j, k | OpenFor(s', j, o) && OpenFor(s', k, o) ensures j == k {
      assert OpenFor(s, j, o) && OpenFor(s, k, o);
    }
  }

  lemma OffersUnchanged(s: State, a: Action, s': State)
    requires Next(s, a) == Some(s') && !a.Register? && !a.Remove?
    ensures SameOffers(s, s')
  {
    hide SameOffers;
    if CallAction(a) { ActingOfferUnchanged(s, a, s'); } else { OthersOfferUnchanged(s, a, s'); }
  }

  lemma ActingOfferUnchanged(s: State, a: Action, s': State)
    requires Next(s, a) == Some(s') && CallAction(a) && !a.Register? && !a.Remove?
    ensures SameOffers(s, s')
  {
    assert s'.calls == s.calls[a.call := s'.calls[a.call]] && s'.pending == s.pending
       && s'.issued == s.issued by { hide SameOffers; }
  }

  lemma OthersOfferUnchanged(s: State, a: Action, s': State)
    requires Next(s, a) == Some(s') && !CallAction(a)
    ensures SameOffers(s, s')
  {
  }

  ghost predicate SameOffer(p: MatchPc, q: MatchPc) {
    Open(p) && Open(q) && p.offerId == q.offerId && p.channel == q.channel
  }

  ghost predicate SameOffers(s: State, s': State) {
    && s'.pending == s.pending && s'.issued == s.issued
    && (forall k <- s'.calls :: Open(s'.calls[k].pc) ==> k in s.calls && SameOffer(s.calls[k].pc, s'.calls[k].pc))
    && (forall k <- s.calls :: Open(s.calls[k].pc) ==> k in s'.calls && SameOffer(s.calls[k].pc, s'.calls[k].pc))
  }

  lemma NextPublished(s: State, a: Action, s': State)
    requires PublishedInv(s) && CallsInv(s) && Next(s, a) == Some(s')
    ensures PublishedInv(s')
  {
    hide CallOk, PublishedOk, Next, CallsInv;
    forall p | p in s'.published ensures PublishedOk(s', p) {
      if p in s.published { PublishedStable(s, a, s', p); } else { NewlyPublished(s, a, s'); }
    }
    NewlyPublished(s, a, s');
    forall i, j | 0 <= i < j < |s'.published| ensures s'.published[i].call != s'.published[j].call {
      if j == |s.published| { FinishedNotPublishing(s, a, s', s.published[i]); }
    }
  }

  lemma PublishedStable(s: State, a: Action, s': State, p: Published)
    requires PublishedOk(s, p) && Next(s, a) == Some(s')
    ensures PublishedOk(s', p)
  {
  }

  lemma NewlyPublished(s: State, a: Action, s': State)
    requires CallsInv(s) && Next(s, a) == Some(s')
    ensures s'.published == s.published
            || (a.Publish? && |s'.published| == |s.published| + 1
                && s'.published == s.published + [s'.published[|s.published|]]
                && s'.published[|s.published|].call == a.call && PublishedOk(s', s'.published[|s.published|]))
  {
    hide AnswerOk, Unread;
    if a.Publish? { assert CallOk(s.channels, s.clock, s.calls[a.call]); }
  }

  lemma FinishedNotPublishing(s: State, a: Action, s': State, p: Published)
    requires PublishedOk(s, p) && a.Publish? && Next(s, a) == Some(s')
    ensures p.call != a.call
  {
  }

  lemma NextKeepsInv(s: State, a: Action, s': State)
    requires Inv(s) && Next(s, a) == Some(s')
    ensures Inv(s')
  {
    hide CallsInv, ChannelsInv, PendingInv, PublishedInv, Next;
    NextChannels(s, a, s');
    NextCalls(s, a, s');
    NextPending(s, a, s');
    NextPublished(s, a, s');
  }

  lemma {:induction false} RunKeepsInv(s: State, actions: seq<Action>)
    requires Inv(s) && Run(s, actions).Some?
    ensures Inv(Run(s, actions).value)
    decreases |actions|
  {
    hide Inv, Next;
    if actions != [] {
      var s' := Next(s, actions[0]).value;
      NextKeepsInv(s, actions[0], s');
      RunKeepsInv(s', actions[1..]);
    }
  }

  ghost predicate Reachable(s: State) {
    exists clock, actions: seq<Action> :: Run(Init(clock), actions) == Some(s)
  }

  lemma ReachableInv(s: State)
    requires Reachable(s)
    ensures Inv(s)
  {
    var clock, actions: seq<Action> :| Run(Init(clock), actions) == Some(s);
    assert Inv(Init(clock));
    RunKeepsInv(Init(clock), actions);
  }

  // ----- what every interleaving guarantees

  /** The keys of `pending` are exactly the open offers; an ended call has none. */
  lemma PendingIsOpenOffers(s: State, offerId: string)
    requires Reachable(s)
    ensures offerId in s.pending <==>
              exists k :: k in s.calls && Open(s.calls[k].pc) && s.calls[k].pc.offerId == offerId
    ensures offerId in s.pending ==>
              s.pending[offerId] in s.channels && s.channels[s.pending[offerId]].offerId == offerId
  {
    ReachableInv(s);
    hide CallsInv, ChannelsInv, PublishedInv;
    if offerId in s.pending {
      var k :| OpenFor(s, k, offerId);
    }
  }

  /** A channel holds at most one response, and every response ever sent on it answers its own offer. */
  lemma ChannelsKeepToTheirOffer(s: State, channel: nat)
    requires Reachable(s) && channel in s.channels
    ensures |s.channels[channel].buffer| <= 1
    ensures forall r <- s.channels[channel].attempts :: r.offerId == s.channels[channel].offerId
    ensures forall r <- s.channels[channel].buffer :: r.offerId == s.channels[channel].offerId
  {
    ReachableInv(s);
    assert ChannelOk(s.channels[channel]);
  }

  /** The answer a call acted on is the first response sent for that offer; late and duplicate ones changed nothing. */
  lemma FirstResponseWins(s: State, k: nat, i: nat)
    requires Reachable(s) && k in s.calls && i < |s.calls[k].tried| && s.calls[k].tried[i].answer.Answered?
    ensures var t := s.calls[k].tried[i];
            && t.answer.response.offerId == t.offerId
            && t.channel in s.channels && s.channels[t.channel].offerId == t.offerId
            && s.channels[t.channel].attempts != [] && s.channels[t.channel].attempts[0] == t.answer.response
  {
    ReachableInv(s);
    var t := s.calls[k].tried[i];
    assert CallOk(s.channels, s.clock, s.calls[k]) && AnswerOk(s.channels, t.offerId, t.channel, t.answer);
    assert ChannelOk(s.channels[t.channel]);
  }

  /**
   One call publishes at most one match: the earliest candidate that accepted its own offer, all earlier ones having
   declined or failed.
   */
  lemma FirstAcceptorMatched(s: State, i: nat, j: nat)
    requires Reachable(s) && i < |s.published| && j < |s.published| && s.published[i].call == s.published[j].call
    ensures i == j
    ensures var p := s.published[i];
            && p.call in s.calls
            && var c := s.calls[p.call];
            && p.rideId == c.rideId
            && exists w ::
                 && 0 <= w < |c.tried| <= |c.candidates| && |c.tried| == w + 1 && p.driverId == c.candidates[w]
                 && c.tried[w].answer.Answered? && c.tried[w].answer.response.accepted
                 && c.tried[w].answer.response.offerId == c.tried[w].offerId
                 && forall e :: 0 <= e < w ==> c.tried[e].answer.Answered? ==> !c.tried[e].answer.response.accepted
  {
    ReachableInv(s);
    var p := s.published[i];
    assert PublishedOk(s, p) && CallOk(s.channels, s.clock, s.calls[p.call]);
    var w := |s.calls[p.call].tried| - 1;
    FirstResponseWins(s, p.call, w);
  }

  /** Publishing names the last candidate tried, who said yes; without a failure the match is there afterwards. */
  lemma WinnerIsPublished(s: State, k: nat, ok: bool, s': State)
    requires Reachable(s) && Next(s, Publish(k, ok)) == Some(s')
    ensures k in s.calls && 0 < |s.calls[k].tried| <= |s.calls[k].candidates|
    ensures var c := s.calls[k];
            && c.tried[|c.tried| - 1].answer.Answered? && c.tried[|c.tried| - 1].answer.response.accepted
            && s'.published == s.published + (if ok then [Published(k, c.rideId, c.candidates[|c.tried| - 1])] else [])
            && k in s'.calls && s'.calls[k].pc.AtEnd?
  {
    hide ChannelsInv, PendingInv, PublishedInv, AnswerOk, TimedOuts, Unread, Run;
    ReachableInv(s);
    assert CallOk(s.channels, s.clock, s.calls[k]);
    assert s.published + [] == s.published;
  }

  /** An offer that ends goes on to publishing exactly on a yes, and otherwise to the next candidate. */
  lemma YesEndsTheSearch(s: State, k: nat, s': State)
    requires Next(s, Remove(k)) == Some(s')
    ensures k in s.calls && s.calls[k].pc.AtRemove? && k in s'.calls
    ensures s'.calls[k].pc.AtPublish? <==> s.calls[k].pc.answer.Answered? && s.calls[k].pc.answer.response.accepted
    ensures !s'.calls[k].pc.AtPublish? ==> s'.calls[k].pc.AtCandidate?
  {
  }

  /** A call that ended without an acceptor has tried every candidate. */
  lemma GivesUpOnlyAfterAll(s: State, k: nat)
    requires Reachable(s) && k in s.calls && s.calls[k].pc.AtEnd?
    requires forall t <- s.calls[k].tried :: t.answer.Answered? ==> !t.answer.response.accepted
    ensures |s.calls[k].tried| == |s.calls[k].candidates|
  {
    ReachableInv(s);
    assert CallOk(s.channels, s.clock, s.calls[k]);
  }

  /**
   At most 30 seconds of waiting per candidate tried, so at most 150 seconds in all; and no less for each timed out.
   */
  lemma WaitingIsBounded(s: State, k: nat)
    requires Reachable(s) && k in s.calls
    ensures var c := s.calls[k];
            var current := if c.pc.AtSelect? then s.clock - c.pc.since else 0;
            && c.waited + current <= 30_000_000_000 * (|c.tried| + if Open(c.pc) then 1 else 0) <= 150_000_000_000
            && 30_000_000_000 * TimedOuts(c.tried) <= c.waited
  {
    ReachableInv(s);
    assert CallOk(s.channels, s.clock, s.calls[k]);
  }

  /** Time never gets stuck: while nobody's timeout is due, it can advance; when one is due, it can be taken. */
  lemma TimeoutsAreTakeable(s: State)
    requires Reachable(s)
    ensures MayPass(s, 1) || exists k :: k in s.calls && Next(s, Expire(k)).Some?
  {
    if !MayPass(s, 1) {
      var k :| k in s.calls && s.calls[k].pc.AtSelect? && s.clock + 1 > s.calls[k].pc.since + OFFER_TIMEOUT;
      assert Next(s, Expire(k)).Some?;
    }
  }
}
