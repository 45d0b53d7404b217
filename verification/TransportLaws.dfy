/** What every order of events keeps of the WebSocket transport: each accepted
    request is pending or settled, and settled once; no timer is armed that nobody
    knows of; there is one connection at most; reconnection stays within its bounds. */
module TransportLaws {
  import opened Json
  import SchedulerSpec
  import opened TransportSpec

  // ----- Requests

  function PendingIds(pending: seq<Pending>): set<nat> {
    set p | p in pending :: p.id
  }

  function SettledIds(settled: seq<Settlement>): set<nat> {
    set s | s in settled :: s.id
  }

  predicate DistinctPending(pending: seq<Pending>) {
    forall i, j | 0 <= i < j < |pending| :: pending[i].id != pending[j].id && pending[i].timer != pending[j].timer
  }

  predicate SettledOnce(settled: seq<Settlement>) {
    forall i, j | 0 <= i < j < |settled| :: settled[i].id != settled[j].id
  }

  /** The accepted ids are the disjoint union of the pending and the settled ones,
      and no id is pending or settled twice. */
  predicate Accounted(t: Transport) {
    && DistinctPending(t.pending) && SettledOnce(t.settled)
    && PendingIds(t.pending) + SettledIds(t.settled) == t.accepted
    && PendingIds(t.pending) !! SettledIds(t.settled)
    && (forall id | id in t.accepted :: id <= t.counter)
  }

  // ----- Timers

  predicate Owns(t: Transport, h: nat, timer: Timer) {
    match timer
    case ForRequest(id) => Pending(id, h) in t.pending
    case Heartbeat => t.heartbeat == Some(h)
    case Pong => t.pong == Some(h)
    case Reconnect => t.reconnect == Some(h)
  }

  predicate Armed(t: Transport, handle: Option<nat>, timer: Timer) {
    handle.Some? ==> handle.value in t.timers && t.timers[handle.value] == timer
  }

  /** The armed timers are exactly those the transport remembers: one for every
      pending request, and at most one each for heartbeat, pong and reconnection. */
  predicate TimersKnown(t: Transport) {
    && (forall h | h in t.timers :: h < t.nextTimer && Owns(t, h, t.timers[h]))
    && (forall p | p in t.pending :: p.timer in t.timers && t.timers[p.timer] == ForRequest(p.id))
    && Armed(t, t.heartbeat, Heartbeat) && Armed(t, t.pong, Pong) && Armed(t, t.reconnect, Reconnect)
  }

  // ----- The connection

  predicate Connection(c: Config, t: Transport) {
    && t.sockets.Keys == (if t.ws.Some? then {t.ws.value} else {})
    && (t.ws.Some? ==> t.ws.value < t.nextSocket && t.state == if t.sockets[t.ws.value] then CONNECTED else CONNECTING)
    && (t.state.CONNECTING? ==> t.ws.Some?)
    && (t.reconnect.Some? <==> t.state.RECONNECTING?)
    && (t.reconnect.Some? ==> !t.intentionalClose)
    && (t.disposed ==> t.ws.None? && t.intentionalClose && t.pending == [] && t.heartbeat.None? && t.pong.None?)
    && (t.heartbeat.Some? || t.pong.Some? ==> t.state.CONNECTED?)
    && (c.maxAttempts > 0 ==> t.attempt <= c.maxAttempts)
    && (t.state.RECONNECTING? ==> t.attempt > 0 && t.delay == ReconnectDelay(c, t.attempt - 1))
  }

  predicate Sound(c: Config, t: Transport) {
    Accounted(t) && TimersKnown(t) && Connection(c, t)
  }

  // ----- Settling

  lemma {:induction false} FindPendingLaw(pending: seq<Pending>, id: nat)
    ensures FindPending(pending, id).Some? <==> id in PendingIds(pending)
  {
    if pending != [] {
      FindPendingLaw(pending[..|pending| - 1], id);
      assert pending == pending[..|pending| - 1] + [pending[|pending| - 1]];
    }
  }

  lemma RemoveAt(pending: seq<Pending>, i: nat)
    requires i < |pending| && DistinctPending(pending)
    ensures var rest := pending[..i] + pending[i + 1..];
            && DistinctPending(rest) && PendingIds(rest) == PendingIds(pending) - {pending[i].id}
            && (forall p :: p in rest <==> p in pending && p != pending[i])
  {
    var rest := pending[..i] + pending[i + 1..];
    forall p ensures p in rest <==> p in pending && p != pending[i] {
      if p in pending && p != pending[i] {
        var j :| 0 <= j < |pending| && pending[j] == p;
        assert p == rest[if j < i then j else j - 1];
      }
      if p in rest {
        var j :| 0 <= j < |rest| && rest[j] == p;
        assert p == pending[if j < i then j else j + 1];
      }
    }
    forall p | p in rest ensures p.id != pending[i].id {
      var j :| 0 <= j < |pending| && pending[j] == p;
    }
  }

  lemma SettledAppend(settled: seq<Settlement>, s: Settlement)
    requires SettledOnce(settled) && s.id !in SettledIds(settled)
    ensures SettledOnce(settled + [s]) && SettledIds(settled + [s]) == SettledIds(settled) + {s.id}
  {
    assert forall i | 0 <= i < |settled| :: settled[i] in settled;
    assert s in settled + [s];
  }

  lemma SettleAccounts(t: Transport, i: nat, s: Settlement)
    requires Accounted(t) && i < |t.pending| && s.id == t.pending[i].id
    ensures Accounted(Settle(t, i, s))
  {
    assert t.pending[i] in t.pending;
    RemoveAt(t.pending, i);
    SettledAppend(t.settled, s);
  }

  lemma SettleTimers(t: Transport, i: nat, s: Settlement)
    requires DistinctPending(t.pending) && TimersKnown(t) && i < |t.pending|
    ensures TimersKnown(Settle(t, i, s))
  {
    var gone := t.pending[i];
    assert gone in t.pending;
    RemoveAt(t.pending, i);
    forall p | p in t.pending && p != gone ensures p.timer != gone.timer {
      var j :| 0 <= j < |t.pending| && t.pending[j] == p;
    }
  }

  lemma SettleKeeps(t: Transport, i: nat, s: Settlement)
    requires Accounted(t) && TimersKnown(t) && i < |t.pending| && s.id == t.pending[i].id
    ensures Accounted(Settle(t, i, s)) && TimersKnown(Settle(t, i, s))
  {
    SettleAccounts(t, i, s);
    SettleTimers(t, i, s);
  }

  lemma RejectionsLaw(pending: seq<Pending>, reason: Reason)
    requires DistinctPending(pending)
    ensures SettledOnce(Rejections(pending, reason)) && SettledIds(Rejections(pending, reason)) == PendingIds(pending)
  {
    var settled := Rejections(pending, reason);
    forall id ensures id in SettledIds(settled) <==> id in PendingIds(pending) {
      if id in SettledIds(settled) {
        var i :| 0 <= i < |settled| && settled[i].id == id;
        assert pending[i] in pending;
      }
      if id in PendingIds(pending) {
        var i :| 0 <= i < |pending| && pending[i].id == id;
        assert settled[i] in settled;
      }
    }
  }

  lemma SettledConcat(a: seq<Settlement>, b: seq<Settlement>)
    requires SettledOnce(a) && SettledOnce(b) && SettledIds(a) !! SettledIds(b)
    ensures SettledOnce(a + b) && SettledIds(a + b) == SettledIds(a) + SettledIds(b)
  {
    forall i, j | 0 <= i < j < |a + b| ensures (a + b)[i].id != (a + b)[j].id {
      if i < |a| <= j {
        assert a[i] in a && b[j - |a|] in b;
        assert a[i].id in SettledIds(a) && b[j - |a|].id in SettledIds(b);
      }
    }
  }

  lemma RejectAllKeeps(t: Transport, reason: Reason)
    requires Accounted(t) && TimersKnown(t)
    ensures Accounted(RejectAll(t, reason)) && TimersKnown(RejectAll(t, reason))
  {
    RejectionsLaw(t.pending, reason);
    SettledConcat(t.settled, Rejections(t.pending, reason));
    var s := RejectAll(t, reason);
    assert PendingIds(s.pending) == {};
    forall h | h in s.timers ensures Owns(s, h, s.timers[h]) {
      assert Owns(t, h, t.timers[h]);
    }
  }

  lemma {:induction false} RequestKeeps(t: Transport)
    requires Accounted(t) && TimersKnown(t)
    ensures Accounted(NewRequest(t)) && TimersKnown(NewRequest(t))
  {
    if IsOpen(t) {
      var s := NewRequest(t);
      var p := Pending(t.counter + 1, t.nextTimer);
      forall i | 0 <= i < |t.pending| ensures t.pending[i].id != p.id && t.pending[i].timer != p.timer {
        assert t.pending[i] in t.pending;
        assert t.pending[i].id in PendingIds(t.pending);
      }
      assert forall x :: x in s.pending <==> x in t.pending || x == p;
      assert PendingIds(s.pending) == PendingIds(t.pending) + {p.id};
    }
  }

  lemma ReceiveKeeps(t: Transport, m: Message)
    requires Accounted(t) && TimersKnown(t)
    ensures Accounted(Receive(t, m)) && TimersKnown(Receive(t, m))
  {
    match m
    case Response(id) =>
      if FindPending(t.pending, id).Some? { SettleKeeps(t, FindPending(t.pending, id).value, Resolved(id)); }
    case Error(Some(id), code) =>
      if FindPending(t.pending, id).Some? {
        SettleKeeps(t, FindPending(t.pending, id).value, Rejected(id, ByServer(code)));
      } else {
        RejectAllKeeps(t, ByServer(code));
      }
    case Error(None, code) => RejectAllKeeps(t, ByServer(code));
    case PongMessage => ClearPongKeeps(t);
  }

  // ----- Timers of the connection

  lemma StopKeeps(t: Transport)
    requires TimersKnown(t)
    ensures TimersKnown(StopHeartbeat(t))
  {
  }

  lemma ClearReconnectKeeps(t: Transport)
    requires TimersKnown(t)
    ensures TimersKnown(ClearReconnect(t))
  {
  }

  lemma ClearPongKeeps(t: Transport)
    requires TimersKnown(t)
    ensures TimersKnown(ClearPong(t))
  {
  }

  lemma PingKeeps(t: Transport)
    requires TimersKnown(t)
    ensures TimersKnown(SendPing(t))
  {
    ClearPongKeeps(t);
  }

  lemma StartKeeps(c: Config, t: Transport)
    requires TimersKnown(t)
    ensures TimersKnown(StartHeartbeat(c, t))
  {
    StopKeeps(t);
  }

  lemma OnCloseKeeps(c: Config, t: Transport)
    requires TimersKnown(t) && t.reconnect.None?
    ensures TimersKnown(OnClose(c, t))
    ensures OnClose(c, t).pending == t.pending && OnClose(c, t).settled == t.settled
    ensures OnClose(c, t).accepted == t.accepted && OnClose(c, t).counter == t.counter
  {
    StopKeeps(t);
  }

  // ----- Each event

  lemma TimeoutKeeps(c: Config, t: Transport, h: nat, id: nat)
    requires Accounted(t) && TimersKnown(t) && h in t.timers && t.timers[h] == ForRequest(id)
    ensures Accounted(OnFire(c, t, h)) && TimersKnown(OnFire(c, t, h))
  {
    assert Pending(id, h) in t.pending;
    FindPendingLaw(t.pending, id);
    var i := FindPending(t.pending, id).value;
    var j :| 0 <= j < |t.pending| && t.pending[j] == Pending(id, h);
    assert i == j;
    SettleKeeps(t, i, Rejected(id, TimedOut));
    assert OnFire(c, t, h) == Settle(t, i, Rejected(id, TimedOut));
  }

  lemma FireKeeps(c: Config, t: Transport, h: nat)
    requires Sound(c, t) && h in t.timers
    ensures Accounted(OnFire(c, t, h)) && TimersKnown(OnFire(c, t, h))
  {
    assert Owns(t, h, t.timers[h]);
    match t.timers[h]
    case ForRequest(id) => TimeoutKeeps(c, t, h, id);
    case Heartbeat => PingKeeps(t);
    case Pong => CloseWsKeeps(c, t.(timers := t.timers - {h}, pong := None));
    case Reconnect =>
  }

  lemma CloseWsKeeps(c: Config, t: Transport)
    requires Accounted(t) && TimersKnown(t) && t.reconnect.None?
    ensures Accounted(CloseWs(c, t)) && TimersKnown(CloseWs(c, t))
  {
    if t.ws.Some? {
      OnCloseKeeps(c, t.(ws := None, sockets := t.sockets - {t.ws.value}));
    }
  }

  lemma DisconnectKeeps(c: Config, t: Transport)
    requires Accounted(t) && TimersKnown(t)
    ensures Accounted(DoDisconnect(c, t)) && TimersKnown(DoDisconnect(c, t))
  {
    var b := ClearReconnect(StopHeartbeat(t.(intentionalClose := true)));
    StandDownKeeps(t);
    RejectAllKeeps(b, ByClient);
    CloseWsKeeps(c, RejectAll(b, ByClient));
  }

  lemma StandDownKeeps(t: Transport)
    requires Accounted(t) && TimersKnown(t)
    ensures var s := ClearReconnect(StopHeartbeat(t.(intentionalClose := true)));
            Accounted(s) && TimersKnown(s)
  {
    StopKeeps(t.(intentionalClose := true));
    ClearReconnectKeeps(StopHeartbeat(t.(intentionalClose := true)));
  }

  lemma ConnectKeeps(t: Transport)
    requires Accounted(t) && TimersKnown(t)
    ensures Accounted(DoConnect(t)) && TimersKnown(DoConnect(t))
  {
    ClearReconnectKeeps(t);
  }

  lemma OpenedKeeps(c: Config, t: Transport, i: nat)
    requires Accounted(t) && TimersKnown(t)
    ensures Accounted(Next(c, t, Opened(i))) && TimersKnown(Next(c, t, Opened(i)))
  {
    if i in t.sockets && !t.sockets[i] {
      StartKeeps(c, t.(sockets := t.sockets[i := true], attempt := 0, state := CONNECTED));
    }
  }

  lemma ClosedKeeps(c: Config, t: Transport, i: nat)
    requires Sound(c, t)
    ensures Accounted(Next(c, t, Closed(i))) && TimersKnown(Next(c, t, Closed(i)))
  {
    if i in t.sockets {
      OnCloseKeeps(c, t.(sockets := t.sockets - {i}));
    }
  }

  lemma DisposeKeeps(c: Config, t: Transport)
    requires Accounted(t) && TimersKnown(t)
    ensures Accounted(DoDispose(c, t)) && TimersKnown(DoDispose(c, t))
  {
    DisconnectKeeps(c, t.(disposed := true));
  }

  lemma StepAccounts(c: Config, t: Transport, e: Event)
    requires Sound(c, t)
    ensures Accounted(Next(c, t, e)) && TimersKnown(Next(c, t, e))
  {
    match e
    case Connect => ConnectKeeps(t);
    case Disconnect => DisconnectKeeps(c, t);
    case Dispose => DisposeKeeps(c, t);
    case Request => RequestKeeps(t);
    case Opened(i) => OpenedKeeps(c, t, i);
    case Closed(i) => ClosedKeeps(c, t, i);
    case Received(i, m) => ReceiveKeeps(t, m);
    case Fire(h) => if h in t.timers { FireKeeps(c, t, h); }
  }

  lemma CloseWsConnects(c: Config, t: Transport)
    requires Connection(c, t) && !t.disposed && t.pong.None? && t.state.CONNECTED?
    ensures Connection(c, CloseWs(c, t))
  {
  }

  lemma {:induction false} FireConnects(c: Config, t: Transport, h: nat)
    requires Sound(c, t) && h in t.timers
    ensures Connection(c, OnFire(c, t, h))
  {
    assert Owns(t, h, t.timers[h]);
    match t.timers[h]
    case Pong => PongConnects(c, t, h);
    case Reconnect => ReconnectConnects(c, t.(timers := t.timers - {h}));
    case Heartbeat => PingConnects(c, t);
    case ForRequest(_) => TimeoutConnects(c, t, h);
  }

  lemma PingConnects(c: Config, t: Transport)
    requires Connection(c, t) && t.heartbeat.Some?
    ensures Connection(c, SendPing(t))
  {
  }

  lemma TimeoutConnects(c: Config, t: Transport, h: nat)
    requires Connection(c, t) && h in t.timers && t.timers[h].ForRequest?
    ensures Connection(c, OnFire(c, t, h))
  {
  }

  lemma PongConnects(c: Config, t: Transport, h: nat)
    requires Connection(c, t) && h in t.timers && t.timers[h].Pong? && t.pong == Some(h)
    ensures Connection(c, OnFire(c, t, h))
  {
    CloseWsConnects(c, t.(timers := t.timers - {h}, pong := None));
  }

  lemma ReconnectConnects(c: Config, t: Transport)
    requires Connection(c, t) && t.reconnect.Some?
    ensures Connection(c, CreateConnection(t.(reconnect := None, state := CONNECTING)))
  {
  }

  lemma LeavingConnects(c: Config, t: Transport)
    requires c.maxAttempts > 0 ==> t.attempt <= c.maxAttempts
    requires t.ws.Some? ==> t.ws.value < t.nextSocket
    requires t.sockets.Keys == (if t.ws.Some? then {t.ws.value} else {})
    ensures Connection(c, DoDisconnect(c, t)) && (t.disposed ==> Connection(c, DoDisconnect(c, t).(state := DISPOSED)))
  {
  }

  lemma ReceiveConnects(c: Config, t: Transport, m: Message)
    requires Connection(c, t)
    ensures Connection(c, Receive(t, m))
  {
  }

  lemma {:induction false} StepConnects(c: Config, t: Transport, e: Event)
    requires Sound(c, t)
    ensures Connection(c, Next(c, t, e))
  {
    match e
    case Fire(h) => if h in t.timers { FireConnects(c, t, h); }
    case Received(i, m) => ReceiveConnects(c, t, m);
    case Disconnect => LeavingConnects(c, t);
    case Dispose => LeavingConnects(c, t.(disposed := true, intentionalClose := true));
    case _ =>
  }

  lemma {:induction false} EveryRun(c: Config, t: Transport, events: seq<Event>)
    requires Sound(c, t)
    ensures Sound(c, Run(c, t, events))
  {
    if events != [] {
      var before := events[..|events| - 1];
      EveryRun(c, t, before);
      StepAccounts(c, Run(c, t, before), events[|events| - 1]);
      StepConnects(c, Run(c, t, before), events[|events| - 1]);
    }
  }

  function RequestTimers(timers: map<nat, Timer>): set<nat> {
    set h | h in timers && timers[h].ForRequest? :: timers[h].id
  }

  /** Whatever happens in whatever order: the accepted requests are the disjoint
      union of the pending and the settled ones, each is settled once, and the live
      request timers are exactly those of the pending requests. */
  lemma {:induction false} RequestsSettleOnce(c: Config, events: seq<Event>)
    ensures var t := Run(c, INITIAL, events);
            && PendingIds(t.pending) !! SettledIds(t.settled)
            && PendingIds(t.pending) + SettledIds(t.settled) == t.accepted
            && SettledOnce(t.settled)
            && RequestTimers(t.timers) == PendingIds(t.pending)
  {
    EveryRun(c, INITIAL, events);
    var t := Run(c, INITIAL, events);
    forall h | h in t.timers && t.timers[h].ForRequest? ensures t.timers[h].id in PendingIds(t.pending) {
      assert Owns(t, h, t.timers[h]);
    }
    forall p | p in t.pending ensures p.id in RequestTimers(t.timers) {
      assert t.timers[p.timer].id == p.id;
    }
  }

  lemma NothingArmed(t: Transport)
    requires TimersKnown(t) && t.pending == [] && t.heartbeat.None? && t.pong.None? && t.reconnect.None?
    ensures t.timers == map[]
  {
    forall h ensures h !in t.timers {
      assert h in t.timers ==> Owns(t, h, t.timers[h]);
    }
  }

  /** A disconnection settles everything that was pending and leaves no timer and
      no socket behind. */
  lemma {:induction false} DisconnectSettlesAll(c: Config, events: seq<Event>)
    ensures var t := Next(c, Run(c, INITIAL, events), Disconnect);
            t.timers == map[] && t.sockets == map[] && t.pending == [] && SettledIds(t.settled) == t.accepted
  {
    EveryRun(c, INITIAL, events);
    var before := Run(c, INITIAL, events);
    var t := Next(c, before, Disconnect);
    StepAccounts(c, before, Disconnect);
    StepConnects(c, before, Disconnect);
    NothingArmed(t);
    assert PendingIds(t.pending) == {};
  }

  predicate Dead(c: Config, t: Transport) {
    Sound(c, t) && t.disposed && t.timers == map[] && t.sockets == map[] && t.reconnect.None?
  }

  lemma DisposalKills(c: Config, t: Transport)
    requires Sound(c, t)
    ensures Dead(c, Next(c, t, Dispose))
  {
    StepAccounts(c, t, Dispose);
    StepConnects(c, t, Dispose);
    NothingArmed(Next(c, t, Dispose));
  }

  lemma DeadStep(c: Config, t: Transport, e: Event)
    requires Dead(c, t)
    ensures var s := Next(c, t, e);
            s.disposed && s.timers == map[] && s.sockets == map[] && s.reconnect.None?
            && s.accepted == t.accepted && s.settled == t.settled
  {
    assert Handles(t.pending) == {};
  }

  /** After a disposal nothing is ever accepted, settled, armed or opened again. */
  lemma {:induction false} DisposedForGood(c: Config, t: Transport, events: seq<Event>)
    requires Sound(c, t)
    ensures var dead, s := Next(c, t, Dispose), Run(c, Next(c, t, Dispose), events);
            Dead(c, s) && s.accepted == dead.accepted && s.settled == dead.settled
  {
    var dead := Next(c, t, Dispose);
    DisposalKills(c, t);
    EveryRun(c, dead, events);
    if events != [] {
      DisposedForGood(c, t, events[..|events| - 1]);
      DeadStep(c, Run(c, dead, events[..|events| - 1]), events[|events| - 1]);
    }
  }

  // ----- A connection that has gone stale

  predicate Leaves(events: seq<Event>) {
    exists i :: 0 <= i < |events| && (events[i].Disconnect? || events[i].Dispose?)
  }

  /** When the pong does not come, the transport reconnects exactly if closing the
      socket delivers the close event at once. */
  lemma StaleReconnectsIff(c: Config, t: Transport, h: nat)
    requires Sound(c, t) && h in t.timers && t.timers[h].Pong? && t.ws.Some?
    requires !t.intentionalClose && (c.maxAttempts <= 0 || t.attempt < c.maxAttempts)
    ensures Next(c, t, Fire(h)).state.RECONNECTING? <==> c.closesAtOnce
    ensures !c.closesAtOnce ==> Next(c, t, Fire(h)).state.CONNECTED? && Next(c, t, Fire(h)).ws.None?
  {
    assert Owns(t, h, t.timers[h]);
  }

  /** Otherwise it stays connected in name, without a socket, and accepts no request,
      until the client itself disconnects: connecting again does nothing. */
  lemma {:induction false} StaleForGood(c: Config, t: Transport, events: seq<Event>)
    requires Sound(c, t) && t.state.CONNECTED? && t.ws.None? && !Leaves(events)
    ensures var s := Run(c, t, events);
            Sound(c, s) && s.state.CONNECTED? && s.ws.None? && s.accepted == t.accepted
  {
    EveryRun(c, t, events);
    if events != [] {
      var before, last := events[..|events| - 1], events[|events| - 1];
      assert forall i | 0 <= i < |before| :: before[i] == events[i];
      StaleForGood(c, t, before);
      StaleStep(c, Run(c, t, before), last);
    }
  }

  lemma StaleStep(c: Config, t: Transport, e: Event)
    requires Sound(c, t) && t.state.CONNECTED? && t.ws.None? && !e.Disconnect? && !e.Dispose?
    ensures var s := Next(c, t, e);
            s.state.CONNECTED? && s.ws.None? && s.accepted == t.accepted
  {
    if e.Fire? && e.timer in t.timers {
      assert Owns(t, e.timer, t.timers[e.timer]);
    }
  }

  /** A scheduled reconnection leads back to accepting requests. */
  lemma {:induction false} ReconnectAccepts(c: Config, t: Transport) returns (events: seq<Event>)
    requires Sound(c, t) && t.reconnect.Some?
    ensures !Leaves(events) && Run(c, t, events).accepted == t.accepted + {t.counter + 1}
    ensures t.counter + 1 !in t.accepted
  {
    var fire, open := Fire(t.reconnect.value), Opened(t.nextSocket);
    events := [fire, open, Request];
    assert events[..2] == [fire, open] && [fire, open][..1] == [fire] && [fire][..0] == [];
    var t1 := Next(c, t, fire);
    assert t1.ws == Some(t.nextSocket) && t1.sockets == t.sockets[t.nextSocket := false];
    assert Run(c, t, [fire]) == t1;
    var t2 := Next(c, t1, open);
    assert IsOpen(t2) && t2.accepted == t.accepted && t2.counter == t.counter;
    assert Run(c, t, [fire, open]) == t2;
    assert Run(c, t, events) == Next(c, t2, Request);
  }

  /** When the pong does not come, the transport will ever accept a request again,
      short of the client disconnecting, exactly if closing the socket delivers its
      close event at once. */
  lemma {:induction false} StaleRecoversIff(c: Config, t: Transport, h: nat)
    requires Sound(c, t) && h in t.timers && t.timers[h].Pong? && t.ws.Some?
    requires !t.intentionalClose && (c.maxAttempts <= 0 || t.attempt < c.maxAttempts)
    ensures (exists events :: !Leaves(events) && Run(c, Next(c, t, Fire(h)), events).accepted != t.accepted) <==> c.closesAtOnce
  {
    var next := Next(c, t, Fire(h));
    StaleReconnectsIff(c, t, h);
    StepAccounts(c, t, Fire(h));
    StepConnects(c, t, Fire(h));
    FireAcceptsNothing(c, t, h);
    if c.closesAtOnce {
      var events := ReconnectAccepts(c, next);
    } else {
      forall events | !Leaves(events) ensures Run(c, next, events).accepted == t.accepted {
        StaleForGood(c, next, events);
      }
    }
  }

  lemma FireAcceptsNothing(c: Config, t: Transport, h: nat)
    ensures Next(c, t, Fire(h)).accepted == t.accepted
  {
  }
}
