/**
 The WebSocket hub and its send queues (internal/shared/ws/hub.go).

 Registration, removal and look-up are mutex sections; closing a send channel, sending to it and receiving from it
 happen outside the mutex, later, on a connection somebody still holds. A send on a closed channel ends the process.
 */
module WsHub {
  import opened Prelude

  const SEND_BUFFER_SIZE := 16

  datatype Phase = Live | Removed | Closed

  /** A connection with its send channel; `accepted` and `taken` record the history of the channel. */
  datatype Conn =
    Conn(id: string, buffer: seq<string>, accepted: seq<string>, taken: seq<string>, closes: nat, phase: Phase)

  datatype State = State(
    clients: map<string, nat>,
    conns: map<nat, Conn>,
    sends: map<nat, (nat, string)>,      // SendJSON calls that found their client and have not sent yet
    crashed: bool)

  datatype Action =
    | Connect(conn: nat, id: string)
    | Remove(conn: nat)
    | Close(conn: nat)
    | LookUp(n: nat, id: string, message: string)
    | TrySend(n: nat)
    | Take(conn: nat)

  function Init(): State {
    State(map[], map[], map[], false)
  }

  function SetConn(s: State, c: nat, conn: Conn): State {
    s.(conns := s.conns[c := conn])
  }

  function Next(s: State, a: Action): Option<State> {
    if s.crashed then None
    else
      match a
      case Connect(c, id) =>
        if c in s.conns then None
        else Some(SetConn(s, c, Conn(id, [], [], [], 0, Live)).(clients := s.clients[id := c]))
      case Remove(c) =>                         // disconnect: delete(h.clients, c.id), whoever is registered there
        if c !in s.conns || s.conns[c].phase != Live then None
        else Some(SetConn(s, c, s.conns[c].(phase := Removed)).(clients := s.clients - {s.conns[c].id}))
      case Close(c) =>
        if c !in s.conns || s.conns[c].phase != Removed then None
        else Some(SetConn(s, c, s.conns[c].(phase := Closed, closes := s.conns[c].closes + 1)))
      case LookUp(n, id, message) =>
        if n in s.sends then None
        else if id !in s.clients then Some(s)
        else Some(s.(sends := s.sends[n := (s.clients[id], message)]))
      case TrySend(n) =>
        if n !in s.sends || s.sends[n].0 !in s.conns then None
        else
          var (c, message) := s.sends[n];
          var done, conn := s.(sends := s.sends - {n}), s.conns[c];
          if conn.closes > 0 then Some(done.(crashed := true))
          else if |conn.buffer| < SEND_BUFFER_SIZE then
            Some(SetConn(done, c, conn.(buffer := conn.buffer + [message], accepted := conn.accepted + [message])))
          else Some(done)
      case Take(c) =>                           // writePump; a closed channel is drained first
        if c !in s.conns || s.conns[c].buffer == [] then None
        else
          var conn := s.conns[c];
          Some(SetConn(s, c, conn.(buffer := conn.buffer[1..], taken := conn.taken + [conn.buffer[0]])))
  }

  function Run(s: State, actions: seq<Action>): Option<State>
    decreases |actions|
  {
    if actions == [] then Some(s)
    else match Next(s, actions[0]) case None => None case Some(s') => Run(s', actions[1..])
  }

  lemma TwoSteps(s: State, a: Action, s1: State, b: Action, s2: State)
    requires Next(s, a) == Some(s1) && Next(s1, b) == Some(s2)
    ensures Run(s, [a, b]) == Some(s2)
  {
    hide Next;
    assert [a, b][1..] == [b] && [b][1..] == [];
    assert Run(s2, []) == Some(s2) && Run(s1, [b]) == Some(s2);
  }

  /** How many messages are waiting for a client; None when it is not registered. */
  function Waiting(s: State, id: string): Option<nat> {
    if id in s.clients && s.clients[id] in s.conns then Some(|s.conns[s.clients[id]].buffer|) else None
  }

  // ----- the hub as code; connections are owned by their goroutines

  class Hub {
    var clients: map<string, nat>
    var conns: map<nat, Conn>

    constructor ()
      ensures clients == map[] && conns == map[]
    {
      clients, conns := map[], map[];
    }

    ghost predicate Shows(s: State)
      reads this
    {
      clients == s.clients && conns == s.conns
    }

    /** HandleConnection after authentication. */
    method Register(c: nat, id: string, ghost s: State)
      requires Shows(s) && !s.crashed && c !in conns
      modifies this
      ensures Run(s, [Connect(c, id)]).Some? && Shows(Run(s, [Connect(c, id)]).value)
    {
      assert [Connect(c, id)][1..] == [];
      conns := conns[c := Conn(id, [], [], [], 0, Live)];
      clients := clients[id := c];
    }

    method Disconnect(c: nat, ghost s: State)
      requires Shows(s) && !s.crashed && c in conns && conns[c].phase == Live
      modifies this
      ensures Run(s, [Remove(c), Close(c)]).Some? && Shows(Run(s, [Remove(c), Close(c)]).value)
    {
      ghost var s1 := Next(s, Remove(c)).value;
      TwoSteps(s, Remove(c), s1, Close(c), Next(s1, Close(c)).value);
      clients := clients - {conns[c].id};
      conns := conns[c := conns[c].(phase := Removed)];
      conns := conns[c := conns[c].(phase := Closed, closes := conns[c].closes + 1)];
    }

    /** SendJSON with nobody in between: true exactly when the client is registered and has room. */
    method SendJSON(id: string, message: string, ghost s: State, ghost n: nat) returns (sent: bool)
      requires Shows(s) && Reachable(s) && !s.crashed && n !in s.sends
      modifies this
      ensures sent <==> Waiting(s, id).Some? && Waiting(s, id).value < SEND_BUFFER_SIZE
      ensures sent ==>
                && Run(s, [LookUp(n, id, message), TrySend(n)]).Some?
                && Shows(Run(s, [LookUp(n, id, message), TrySend(n)]).value)
      ensures sent ==>
                && clients == old(clients) && id in clients && clients[id] in conns
                && conns == old(conns)[clients[id] := conns[clients[id]]]
                && conns[clients[id]].buffer == old(conns)[clients[id]].buffer + [message]
                && conns[clients[id]].accepted == old(conns)[clients[id]].accepted + [message]
      ensures !sent ==> Shows(s)
    {
      ReachableInv(s);
      if id !in clients { return false; }
      var c := clients[id];
      if |conns[c].buffer| >= SEND_BUFFER_SIZE { return false; }
      assert ConnOk(s.conns[c]);
      ghost var s1 := Next(s, LookUp(n, id, message)).value;
      TwoSteps(s, LookUp(n, id, message), s1, TrySend(n), Next(s1, TrySend(n)).value);
      conns := conns[c := conns[c].(buffer := conns[c].buffer + [message], accepted := conns[c].accepted + [message])];
      return true;
    }

    /** The write loop for up to `limit` messages: what it writes is the front of the buffer, in order. */
    method WritePump(c: nat, limit: nat) returns (written: seq<string>)
      requires c in conns
      modifies this
      ensures |written| <= limit && written <= old(conns[c].buffer)
      ensures |written| < limit ==> written == old(conns[c].buffer)
      ensures conns == old(conns)[c := old(conns[c]).(buffer := old(conns[c].buffer)[|written|..],
                taken := old(conns[c].taken) + written)]
      ensures clients == old(clients)
    {
      written := [];
      ghost var first := conns[c];
      assert first.buffer[0..] == first.buffer && first.taken + [] == first.taken;
      while |written| < limit && conns[c].buffer != []
        invariant |written| <= limit && written <= first.buffer
        invariant c in conns && clients == old(clients)
        invariant conns == old(conns)[c := first.(buffer := first.buffer[|written|..], taken := first.taken + written)]
        decreases limit - |written|
      {
        var message := conns[c].buffer[0];
        conns := conns[c := conns[c].(buffer := conns[c].buffer[1..], taken := conns[c].taken + [message])];
        assert first.buffer[|written|..][1..] == first.buffer[|written| + 1..];
        assert first.taken + written + [message] == first.taken + (written + [message]);
        written := written + [message];
      }
    }
  }

  // ----- every interleaving

  ghost predicate ConnOk(conn: Conn) {
    && conn.taken + conn.buffer == conn.accepted && |conn.buffer| <= SEND_BUFFER_SIZE
    && conn.closes == (if conn.phase == Closed then 1 else 0)
  }

  ghost predicate Inv(s: State) {
    && (forall c <- s.conns :: ConnOk(s.conns[c]))
    && (forall id <- s.clients ::
          && s.clients[id] in s.conns
          && s.conns[s.clients[id]].phase == Live && s.conns[s.clients[id]].id == id)
    && (forall n <- s.sends :: s.sends[n].0 in s.conns)
  }

  lemma NextKeepsConns(s: State, a: Action, s': State, c: nat)
    requires Next(s, a) == Some(s') && c in s'.conns && (c in s.conns ==> ConnOk(s.conns[c]))
    ensures ConnOk(s'.conns[c])
  {
    if a.TrySend? && c in s.conns && s'.conns[c] != s.conns[c] {
      assert s'.conns[c].accepted == s'.conns[c].taken + s'.conns[c].buffer;
    }
  }

  lemma NextKeepsInv(s: State, a: Action, s': State)
    requires Inv(s) && Next(s, a) == Some(s')
    ensures Inv(s')
  {
    hide ConnOk;
    forall c | c in s'.conns ensures ConnOk(s'.conns[c]) {
      if c in s.conns { assert ConnOk(s.conns[c]); }
      NextKeepsConns(s, a, s', c);
    }
  }

  lemma {:induction false} RunKeepsInv(s: State, actions: seq<Action>)
    requires Inv(s) && Run(s, actions).Some?
    ensures Inv(Run(s, actions).value)
    decreases |actions|
  {
    if actions != [] {
      NextKeepsInv(s, actions[0], Next(s, actions[0]).value);
      RunKeepsInv(Next(s, actions[0]).value, actions[1..]);
    }
  }

  ghost predicate Reachable(s: State) {
    exists actions: seq<Action> :: Run(Init(), actions) == Some(s)
  }

  lemma ReachableInv(s: State)
    requires Reachable(s)
    ensures Inv(s)
  {
    var actions: seq<Action> :| Run(Init(), actions) == Some(s);
    RunKeepsInv(Init(), actions);
  }

  /** Through any connects, replacements and disconnects, a registered client's channel is open and is its own id's. */
  lemma RegisteredClientIsOpen(s: State, id: string)
    requires Reachable(s) && id in s.clients
    ensures s.clients[id] in s.conns && s.conns[s.clients[id]].closes == 0 && s.conns[s.clients[id]].id == id
  {
    ReachableInv(s);
    assert ConnOk(s.conns[s.clients[id]]);
  }

  /** A channel is closed at most once, holds at most 16 messages, and delivers exactly the accepted ones in order. */
  lemma ChannelHistory(s: State, c: nat)
    requires Reachable(s) && c in s.conns
    ensures s.conns[c].closes <= 1 && |s.conns[c].buffer| <= 16
    ensures s.conns[c].taken + s.conns[c].buffer == s.conns[c].accepted
  {
    ReachableInv(s);
    assert ConnOk(s.conns[c]);
  }

  /**
   What a send attempt does, exactly: accepted when open with room, dropped when open and full, fatal when closed
   since the look-up.
   */
  lemma SendOutcome(s: State, n: nat, s': State)
    requires Reachable(s) && Next(s, TrySend(n)) == Some(s')
    ensures n in s.sends && s.sends[n].0 in s.conns
    ensures var (c, message) := s.sends[n];
            && (s'.crashed <==> s.conns[c].phase == Closed)
            && (!s'.crashed ==>
                  s'.conns[c].accepted == s.conns[c].accepted + if |s.conns[c].buffer| < 16 then [message] else [])
            && s'.clients == s.clients
  {
    ReachableInv(s);
    assert ConnOk(s.conns[s.sends[n].0]);
  }

  // ----- who stays registered

  ghost predicate Registered(s: State, id: string, c: nat) {
    id in s.clients && s.clients[id] == c
  }

  /** A connection made, or lost, under this client id. */
  ghost predicate Touches(conns: map<nat, Conn>, a: Action, id: string) {
    match a
    case Connect(_, other) => other == id
    case Remove(d) => d in conns && conns[d].id == id
    case _ => false
  }

  lemma {:induction false} IdsKept(s: State, actions: seq<Action>, d: nat)
    requires d in s.conns && Run(s, actions).Some?
    ensures d in Run(s, actions).value.conns && Run(s, actions).value.conns[d].id == s.conns[d].id
    decreases |actions|
  {
    if actions != [] { IdsKept(Next(s, actions[0]).value, actions[1..], d); }
  }

  /** A connection that is not registered never becomes so again. */
  lemma {:induction false} NeverAgain(s: State, actions: seq<Action>, id: string, c: nat)
    requires c in s.conns && !Registered(s, id, c) && Run(s, actions).Some?
    ensures !Registered(Run(s, actions).value, id, c)
    decreases |actions|
  {
    if actions != [] { NeverAgain(Next(s, actions[0]).value, actions[1..], id, c); }
  }

  /**
   Over any run a connection keeps its registration exactly if no connection, its own or another, comes or goes under
   its id.
   */
  lemma {:induction false} StaysRegisteredExactly(s: State, actions: seq<Action>, id: string, c: nat)
    requires c in s.conns && Registered(s, id, c) && Run(s, actions).Some?
    ensures var t := Run(s, actions).value;
            Registered(t, id, c) <==> forall a <- actions :: !Touches(t.conns, a, id)
    decreases |actions|
  {
    if actions != [] {
      var a, rest, s1, t := actions[0], actions[1..], Next(s, actions[0]).value, Run(s, actions).value;
      assert actions == [a] + rest;
      if a.Remove? { IdsKept(s, actions, a.conn); }
      if Touches(t.conns, a, id) {
        NeverAgain(s1, rest, id, c);
      } else {
        StaysRegisteredExactly(s1, rest, id, c);
      }
    }
  }

  /** So the exit of an old connection can unregister a live one that has replaced it. */
  lemma OldExitUnregistersReplacement(id: string) returns (s: State, s': State)
    ensures Reachable(s) && Registered(s, id, 1) && 1 in s.conns && s.conns[1].phase == Live
    ensures Next(s, Remove(0)) == Some(s') && id !in s'.clients
    ensures 1 in s'.conns && s'.conns[1].phase == Live
  {
    var s1 := Next(Init(), Connect(0, id)).value;
    s := Next(s1, Connect(1, id)).value;
    TwoSteps(Init(), Connect(0, id), s1, Connect(1, id), s);
    s' := Next(s, Remove(0)).value;
  }

  // ----- when the hub survives

  /** The connection a pending send has found. */
  ghost predicate SendsTo(s: State, a: Action, c: nat) {
    a.TrySend? && a.n in s.sends && s.sends[a.n].0 == c
  }

  lemma {:induction false} RunLast(s: State, actions: seq<Action>)
    requires actions != [] && Run(s, actions).Some?
    ensures var front := Run(s, actions[..|actions| - 1]);
            front.Some? && Next(front.value, actions[|actions| - 1]) == Run(s, actions)
    decreases |actions|
  {
    hide Next;
    var rest := actions[1..];
    if rest != [] {
      RunLast(Next(s, actions[0]).value, rest);
      assert actions[..|actions| - 1][1..] == rest[..|rest| - 1];
    }
  }

  lemma {:induction false} RunJoin(s: State, first: seq<Action>, second: seq<Action>)
    requires Run(s, first).Some?
    ensures Run(s, first + second) == Run(Run(s, first).value, second)
    decreases |first|
  {
    hide Next;
    if first == [] {
      assert [] + second == second;
    } else {
      assert (first + second)[1..] == first[1..] + second;
      RunJoin(Next(s, first[0]).value, first[1..], second);
    }
  }

  lemma {:induction false} RunPrefix(s: State, actions: seq<Action>, i: nat)
    requires i <= |actions| && Run(s, actions).Some?
    ensures Run(s, actions[..i]).Some?
    decreases |actions|
  {
    hide Next;
    if i == |actions| {
      assert actions[..i] == actions;
    } else {
      RunLast(s, actions);
      RunPrefix(s, actions[..|actions| - 1], i);
      assert actions[..|actions| - 1][..i] == actions[..i];
    }
  }

  /** A channel is closed exactly if its connection's Close has happened. */
  lemma {:induction false} ClosedExactly(actions: seq<Action>, c: nat)
    requires Run(Init(), actions).Some?
    ensures var s := Run(Init(), actions).value;
            (c in s.conns && s.conns[c].closes > 0) <==> Close(c) in actions
    decreases |actions|
  {
    if actions != [] {
      var front, a := actions[..|actions| - 1], actions[|actions| - 1];
      RunLast(Init(), actions);
      ClosedExactly(front, c);
      assert actions == front + [a];
      CloseStep(Run(Init(), front).value, a, Run(Init(), actions).value, c);
    }
  }

  lemma CloseStep(s: State, a: Action, s': State, c: nat)
    requires Next(s, a) == Some(s')
    ensures (c in s'.conns && s'.conns[c].closes > 0) <==> (c in s.conns && s.conns[c].closes > 0) || a == Close(c)
  {
  }

  /** A send attempted on a channel that has been closed by then. */
  ghost predicate SendAfterClose(actions: seq<Action>, j: nat)
    requires j < |actions| && Run(Init(), actions[..j]).Some?
  {
    exists c :: SendsTo(Run(Init(), actions[..j]).value, actions[j], c) && Close(c) in actions[..j]
  }

  lemma StepSurvivesExactly(actions: seq<Action>)
    requires actions != [] && Run(Init(), actions).Some?
    ensures Run(Init(), actions[..|actions| - 1]).Some?
    ensures Run(Init(), actions).value.crashed <==> SendAfterClose(actions, |actions| - 1)
  {
    hide Run;
    var front, a := actions[..|actions| - 1], actions[|actions| - 1];
    RunLast(Init(), actions);
    var s := Run(Init(), front).value;
    if a.TrySend? && a.n in s.sends {
      ClosedExactly(front, s.sends[a.n].0);
      assert SendsTo(s, a, s.sends[a.n].0);
    }
  }

  /**
   Over any run the hub survives if and only if no send is attempted on a channel after its connection has closed it.
   */
  lemma SurvivesExactly(actions: seq<Action>)
    requires Run(Init(), actions).Some?
    ensures forall j :: 0 <= j < |actions| ==> Run(Init(), actions[..j]).Some?
    ensures !Run(Init(), actions).value.crashed <==> forall j :: 0 <= j < |actions| ==> !SendAfterClose(actions, j)
  {
    hide Run, SendAfterClose;
    forall j | 0 <= j < |actions| ensures Run(Init(), actions[..j]).Some? { RunPrefix(Init(), actions, j); }
    if actions == [] {
      InitSurvives();
    } else {
      StepSurvivesExactly(actions);
      forall j | 0 <= j < |actions| - 1 ensures !SendAfterClose(actions, j) {
        EarlierSendsSurvive(actions, j);
      }
    }
  }

  lemma InitSurvives()
    ensures !Run(Init(), []).value.crashed
  {
  }

  /** A run goes on after its j-th action only if that one did not end the process. */
  lemma EarlierSendsSurvive(actions: seq<Action>, j: nat)
    requires j + 1 < |actions| && Run(Init(), actions).Some? && Run(Init(), actions[..j]).Some?
    ensures !SendAfterClose(actions, j)
  {
    hide Run;
    var head := actions[..j + 1];
    RunPrefix(Init(), actions, j + 2);
    RunLast(Init(), actions[..j + 2]);
    assert actions[..j + 2][..j + 1] == head && head[..j] == actions[..j];
    StepSurvivesExactly(head);
  }

  /** And it can end: a client leaves between another goroutine's look-up and its send. */
  lemma SendCanCrash(id: string, message: string) returns (actions: seq<Action>)
    ensures Run(Init(), actions).Some? && Run(Init(), actions).value.crashed
  {
    var s1 := Next(Init(), Connect(0, id)).value;
    var s2 := Next(s1, LookUp(0, id, message)).value;
    var s3 := Next(s2, Remove(0)).value;
    var s4 := Next(s3, Close(0)).value;
    var s5 := Next(s4, TrySend(0)).value;
    actions := [Connect(0, id), LookUp(0, id, message), Remove(0), Close(0), TrySend(0)];
    TwoSteps(s3, Close(0), s4, TrySend(0), s5);
    assert [Remove(0), Close(0), TrySend(0)][1..] == [Close(0), TrySend(0)];
    assert Run(s2, [Remove(0), Close(0), TrySend(0)]) == Some(s5);
    TwoSteps(Init(), Connect(0, id), s1, LookUp(0, id, message), s2);
    RunJoin(Init(), [Connect(0, id), LookUp(0, id, message)], [Remove(0), Close(0), TrySend(0)]);
    assert [Connect(0, id), LookUp(0, id, message)] + [Remove(0), Close(0), TrySend(0)] == actions;
  }

  // ----- survival read off the state

  ghost predicate NoLookUp(actions: seq<Action>) {
    forall a <- actions :: !a.LookUp?
  }

  /** Without look-ups there is never a send to come. */
  lemma {:induction false} NothingToSend(s: State, actions: seq<Action>)
    requires s.sends == map[] && !s.crashed && NoLookUp(actions) && Run(s, actions).Some?
    ensures !Run(s, actions).value.crashed
    decreases |actions|
  {
    if actions != [] {
      assert !actions[0].LookUp?;
      NothingToSend(Next(s, actions[0]).value, actions[1..]);
    }
  }

  lemma ClosedSendCrashes(s: State, n: nat)
    requires !s.crashed && n in s.sends && s.sends[n].0 in s.conns && s.conns[s.sends[n].0].closes > 0
    ensures Next(s, TrySend(n)).Some? && Next(s, TrySend(n)).value.crashed
  {
  }

  /** A pending send is fatal if its client leaves first, which it can do from any phase. */
  lemma PendingSendCanCrash(s: State, n: nat) returns (actions: seq<Action>)
    requires Inv(s) && !s.crashed && n in s.sends
    ensures NoLookUp(actions) && Run(s, actions).Some? && Run(s, actions).value.crashed
  {
    hide Run;
    var c := s.sends[n].0;
    assert ConnOk(s.conns[c]);
    var s1, leaving := s, [];
    assert Run(s, []) == Some(s) by { RunNothing(s); }
    if s1.conns[c].phase == Live {
      var s2 := Next(s1, Remove(c)).value;
      RunOne(s1, Remove(c), s2);
      RunJoin(s, leaving, [Remove(c)]);
      s1, leaving := s2, leaving + [Remove(c)];
    }
    if s1.conns[c].phase == Removed {
      var s2 := Next(s1, Close(c)).value;
      RunOne(s1, Close(c), s2);
      RunJoin(s, leaving, [Close(c)]);
      s1, leaving := s2, leaving + [Close(c)];
    }
    ClosedSendCrashes(s1, n);
    RunOne(s1, TrySend(n), Next(s1, TrySend(n)).value);
    RunJoin(s, leaving, [TrySend(n)]);
    actions := leaving + [TrySend(n)];
  }

  lemma RunNothing(s: State)
    ensures Run(s, []) == Some(s)
  {
  }

  lemma RunOne(s: State, a: Action, s': State)
    requires Next(s, a) == Some(s')
    ensures Run(s, [a]) == Some(s')
  {
    hide Next;
    assert [a][1..] == [];
    assert Run(s', []) == Some(s');
  }

  /** In any reachable state, exactly if no send is pending does the hub survive everything but further look-ups. */
  lemma SafeExactly(s: State)
    requires Reachable(s) && !s.crashed
    ensures s.sends == map[] <==>
              forall actions: seq<Action> ::
                NoLookUp(actions) && Run(s, actions).Some? ==> !Run(s, actions).value.crashed
  {
    hide Run, Reachable, NoLookUp;
    ReachableInv(s);
    if s.sends == map[] {
      forall actions: seq<Action> | NoLookUp(actions) && Run(s, actions).Some?
        ensures !Run(s, actions).value.crashed
      {
        NothingToSend(s, actions);
      }
    } else {
      var n :| n in s.sends;
      var actions := PendingSendCanCrash(s, n);
    }
  }

  // ----- where messages come from

  /** The i-th action looked this client up to send it this message. */
  ghost predicate LookedUp(actions: seq<Action>, i: nat, id: string, message: string) {
    i < |actions| && exists n :: actions[i] == LookUp(n, id, message)
  }

  /** A pending send was looked up under the id of the connection it found, with this message. */
  lemma {:induction false} PendingOrigin(actions: seq<Action>, n: nat) returns (i: nat)
    requires Run(Init(), actions).Some? && n in Run(Init(), actions).value.sends
    ensures var s := Run(Init(), actions).value;
            && s.sends[n].0 in s.conns
            && LookedUp(actions, i, s.conns[s.sends[n].0].id, s.sends[n].1)
    decreases |actions|
  {
    hide Run;
    i := 0;
    if actions == [] {
      RunNothing(Init());
      assert false;
    } else {
      var last := |actions| - 1;
      RunLast(Init(), actions);
      var s, a, s' := Run(Init(), actions[..last]).value, actions[last], Run(Init(), actions).value;
      assert Reachable(s);
      ReachableInv(s);
      PendingStep(s, a, s', n);
      if n in s.sends && s.sends[n] == s'.sends[n] {
        i := PendingOrigin(actions[..last], n);
        assert actions[..last][i] == actions[i];
      } else {
        i := last;
      }
    }
  }

  /** A send is pending from before, or has just been looked up for the connection registered under its id. */
  lemma PendingStep(s: State, a: Action, s': State, n: nat)
    requires Inv(s) && Next(s, a) == Some(s') && n in s'.sends
    ensures s'.sends[n].0 in s'.conns
    ensures || (n in s.sends && s'.sends[n] == s.sends[n] && s.sends[n].0 in s.conns
                && s'.conns[s.sends[n].0].id == s.conns[s.sends[n].0].id)
            || a == LookUp(n, s'.conns[s'.sends[n].0].id, s'.sends[n].1)
  {
    hide ConnOk;
  }

  /** Every message a connection has accepted was sent to its client by some SendJSON. */
  lemma {:induction false} AcceptedOrigin(actions: seq<Action>, c: nat, message: string) returns (i: nat)
    requires Run(Init(), actions).Some?
    requires var s := Run(Init(), actions).value; c in s.conns && message in s.conns[c].accepted
    ensures LookedUp(actions, i, Run(Init(), actions).value.conns[c].id, message)
    decreases |actions|
  {
    hide Run;
    i := 0;
    if actions == [] {
      RunNothing(Init());
      assert false;
    } else {
      var last := |actions| - 1;
      RunLast(Init(), actions);
      var s, a, s' := Run(Init(), actions[..last]).value, actions[last], Run(Init(), actions).value;
      AcceptedStep(s, a, s', c, message);
      if c in s.conns && message in s.conns[c].accepted {
        i := AcceptedOrigin(actions[..last], c, message);
        assert actions[..last][i] == actions[i];
      } else {
        i := PendingOrigin(actions[..last], a.n);
        assert actions[..last][i] == actions[i];
      }
    }
  }

  lemma AcceptedStep(s: State, a: Action, s': State, c: nat, message: string)
    requires Next(s, a) == Some(s') && c in s'.conns && message in s'.conns[c].accepted
    ensures c in s.conns && s'.conns[c].id == s.conns[c].id
    ensures message in s.conns[c].accepted || (a.TrySend? && a.n in s.sends && s.sends[a.n] == (c, message))
  {
  }
}
