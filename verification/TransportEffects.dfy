/** Which event settles which promise and how, and when a reconnection is armed, with
    what delay: exactly, for every event and over every run. */
module TransportEffects {
  import opened Json
  import SchedulerSpec
  import opened TransportSpec
  import opened TransportLaws

  // ----- The cause of a settlement

  /** The message comes in on the open socket. */
  predicate Arrives(t: Transport, e: Event) {
    e.Received? && e.socket in t.sockets && t.sockets[e.socket]
  }

  /** A pending promise is resolved by the response with its id. It is rejected by an
      error about it, about nothing or about no pending request; by its own timer; and
      by the client when that disconnects. */
  predicate Settles(t: Transport, e: Event, s: Settlement) {
    s.id in PendingIds(t.pending) &&
    match s
    case Resolved(id) => Arrives(t, e) && e.message == Response(id)
    case Rejected(id, ByServer(code)) =>
      && Arrives(t, e) && e.message.Error? && e.message.code == code
      && (e.message.about.None? || e.message.about.value == id || e.message.about.value !in PendingIds(t.pending))
    case Rejected(id, TimedOut) => e.Fire? && e.timer in t.timers && t.timers[e.timer] == ForRequest(id)
    case Rejected(_, ByClient) => e.Disconnect? || e.Dispose?
  }

  lemma RejectionsMembers(pending: seq<Pending>, reason: Reason)
    ensures forall s :: s in Rejections(pending, reason) <==>
                          s.Rejected? && s.reason == reason && s.id in PendingIds(pending)
  {
    var all := Rejections(pending, reason);
    forall s ensures s in all <==> s.Rejected? && s.reason == reason && s.id in PendingIds(pending) {
      if s in all {
        var i :| 0 <= i < |all| && all[i] == s;
        assert pending[i] in pending;
      }
      if s.Rejected? && s.reason == reason && s.id in PendingIds(pending) {
        var i :| 0 <= i < |pending| && pending[i].id == s.id;
        assert all[i] == s;
      }
    }
  }

  /** The settlements that an event has added are the given ones. */
  ghost predicate Adds(t: Transport, next: Transport, e: Event) {
    && t.settled <= next.settled
    && forall s :: s in next.settled[|t.settled|..] <==> Settles(t, e, s)
  }

  lemma AddsAll(t: Transport, next: Transport, e: Event, reason: Reason)
    requires next.settled == t.settled + Rejections(t.pending, reason)
    requires forall s :: Settles(t, e, s) <==> s.Rejected? && s.reason == reason && s.id in PendingIds(t.pending)
    ensures Adds(t, next, e)
  {
    RejectionsMembers(t.pending, reason);
    assert next.settled[|t.settled|..] == Rejections(t.pending, reason);
  }

  lemma AddsOne(t: Transport, next: Transport, e: Event, one: Settlement)
    requires next.settled == t.settled + [one]
    requires forall s :: Settles(t, e, s) <==> s == one
    ensures Adds(t, next, e)
  {
    assert next.settled[|t.settled|..] == [one];
  }

  lemma AddsNone(t: Transport, next: Transport, e: Event)
    requires next.settled == t.settled && forall s :: !Settles(t, e, s)
    ensures Adds(t, next, e)
  {
  }

  lemma CloseSettlesNothing(c: Config, t: Transport)
    ensures CloseWs(c, t).settled == t.settled
  {
  }

  lemma DisconnectSettles(c: Config, t: Transport, e: Event)
    requires e.Disconnect? || e.Dispose?
    ensures Adds(t, Next(c, t, e), e)
  {
    CloseSettlesNothing(c, RejectAll(ClearReconnect(StopHeartbeat(t.(intentionalClose := true))), ByClient));
    CloseSettlesNothing(c, RejectAll(ClearReconnect(StopHeartbeat(t.(disposed := true, intentionalClose := true))), ByClient));
    AddsAll(t, Next(c, t, e), e, ByClient);
  }

  lemma ReceiveSettles(c: Config, t: Transport, e: Event)
    requires Arrives(t, e)
    ensures Adds(t, Next(c, t, e), e)
  {
    var next := Next(c, t, e);
    match e.message
    case Response(id) =>
      FindPendingLaw(t.pending, id);
      if id in PendingIds(t.pending) { AddsOne(t, next, e, Resolved(id)); } else { AddsNone(t, next, e); }
    case Error(Some(id), code) =>
      FindPendingLaw(t.pending, id);
      if id in PendingIds(t.pending) { AddsOne(t, next, e, Rejected(id, ByServer(code))); } else { AddsAll(t, next, e, ByServer(code)); }
    case Error(None, code) => AddsAll(t, next, e, ByServer(code));
    case PongMessage => AddsNone(t, next, e);
  }

  lemma FireSettles(c: Config, t: Transport, e: Event)
    requires TimersKnown(t) && e.Fire? && e.timer in t.timers
    ensures Adds(t, Next(c, t, e), e)
  {
    assert Owns(t, e.timer, t.timers[e.timer]);
    match t.timers[e.timer]
    case ForRequest(id) =>
      assert Pending(id, e.timer) in t.pending;
      AddsOne(t, Next(c, t, e), e, Rejected(id, TimedOut));
    case Pong =>
      CloseSettlesNothing(c, t.(timers := t.timers - {e.timer}, pong := None));
      AddsNone(t, Next(c, t, e), e);
    case _ => AddsNone(t, Next(c, t, e), e);
  }

  /** An event settles exactly the promises it is the cause for. */
  lemma {:induction false} StepSettles(c: Config, t: Transport, e: Event)
    requires TimersKnown(t)
    ensures Adds(t, Next(c, t, e), e)
  {
    if e.Disconnect? || e.Dispose? {
      DisconnectSettles(c, t, e);
    } else if Arrives(t, e) {
      ReceiveSettles(c, t, e);
    } else if e.Fire? && e.timer in t.timers {
      FireSettles(c, t, e);
    } else {
      AddsNone(t, Next(c, t, e), e);
    }
  }

  /** In every run a promise has been settled in a given way exactly if some event was
      the cause: nothing is resolved without its response, and no cause is lost. */
  lemma {:induction false} SettledByCause(c: Config, events: seq<Event>, s: Settlement)
    ensures s in Run(c, INITIAL, events).settled <==> Caused(c, events, s)
  {
    if events != [] {
      var before, last := events[..|events| - 1], events[|events| - 1];
      var t, next := Run(c, INITIAL, before), Run(c, INITIAL, events);
      SettledByCause(c, before, s);
      EveryRun(c, INITIAL, before);
      StepSettles(c, t, last);
      AddedMember(t, next, last, s);
      CausedSplit(c, events, s);
    }
  }

  lemma AddedMember(t: Transport, next: Transport, e: Event, s: Settlement)
    requires Adds(t, next, e)
    ensures s in next.settled <==> s in t.settled || Settles(t, e, s)
  {
    assert next.settled == t.settled + next.settled[|t.settled|..];
  }

  predicate Caused(c: Config, events: seq<Event>, s: Settlement) {
    exists i :: 0 <= i < |events| && Settles(Run(c, INITIAL, events[..i]), events[i], s)
  }

  lemma CausedSplit(c: Config, events: seq<Event>, s: Settlement)
    requires events != []
    ensures var before := events[..|events| - 1];
            Caused(c, events, s) <==> Caused(c, before, s) || Settles(Run(c, INITIAL, before), events[|events| - 1], s)
  {
    var before := events[..|events| - 1];
    assert forall i | 0 <= i < |before| :: before[..i] == events[..i] && before[i] == events[i];
    if Caused(c, before, s) {
      var i :| 0 <= i < |before| && Settles(Run(c, INITIAL, before[..i]), before[i], s);
      assert Settles(Run(c, INITIAL, events[..i]), events[i], s);
    }
    if Caused(c, events, s) {
      var i :| 0 <= i < |events| && Settles(Run(c, INITIAL, events[..i]), events[i], s);
      if i < |before| {
        assert Settles(Run(c, INITIAL, before[..i]), before[i], s);
      }
    }
  }

  // ----- Reconnection

  /** The connection is lost: the socket closes, or the pong stays away and closing the
      socket says so at once. */
  predicate Drops(c: Config, t: Transport, e: Event) {
    || (e.Closed? && e.socket in t.sockets)
    || (e.Fire? && e.timer in t.timers && t.timers[e.timer].Pong? && t.ws.Some? && c.closesAtOnce)
  }

  predicate MayReconnect(c: Config, t: Transport) {
    !t.disposed && !t.intentionalClose && (c.maxAttempts <= 0 || t.attempt < c.maxAttempts)
  }

  predicate Opens(t: Transport, e: Event) {
    e.Opened? && e.socket in t.sockets && !t.sockets[e.socket]
  }

  /** A new reconnection is armed exactly when the connection is lost and another attempt
      is allowed; it waits as long as the attempts before it say. */
  lemma ReconnectionArmedIff(c: Config, t: Transport, e: Event)
    requires Sound(c, t)
    ensures var next := Next(c, t, e);
            && (next.reconnect.Some? && next.reconnect != t.reconnect <==> Drops(c, t, e) && MayReconnect(c, t))
            && next.attempt == Attempt(c, t, e)
            && (Drops(c, t, e) && MayReconnect(c, t) ==>
                  next.state.RECONNECTING? && next.delay == ReconnectDelay(c, t.attempt) && next.reconnect == Some(t.nextTimer))
            && (Drops(c, t, e) ==> next.ws.None? && (next.state.RECONNECTING? || next.state.DISCONNECTED?))
  {
    if Drops(c, t, e) {
      LostConnection(c, t, e);
    } else {
      KeptConnection(c, t, e);
    }
  }

  lemma LostConnection(c: Config, t: Transport, e: Event)
    requires Sound(c, t) && Drops(c, t, e)
    ensures var next := Next(c, t, e);
            && next.ws.None? && !Opens(t, e) && t.reconnect.None?
            && if MayReconnect(c, t)
               then next.state.RECONNECTING? && next.delay == ReconnectDelay(c, t.attempt)
                    && next.reconnect == Some(t.nextTimer) && next.attempt == t.attempt + 1
               else next.state.DISCONNECTED? && next.reconnect.None? && next.attempt == t.attempt
  {
    if e.Fire? {
      assert Owns(t, e.timer, t.timers[e.timer]);
    }
  }

  lemma {:induction false} KeptConnection(c: Config, t: Transport, e: Event)
    requires Sound(c, t) && !Drops(c, t, e)
    ensures var next := Next(c, t, e);
            && (next.reconnect.None? || next.reconnect == t.reconnect)
            && next.attempt == if Opens(t, e) then 0 else t.attempt
  {
    match e
    case Fire(h) => if h in t.timers { KeptByTimer(c, t, h); }
    case Disconnect => KeptByDisconnection(c, t);
    case Dispose => KeptByDisconnection(c, t.(disposed := true));
    case Received(i, m) => KeptByMessage(t, m);
    case _ =>
  }

  lemma KeptByTimer(c: Config, t: Transport, h: nat)
    requires Sound(c, t) && h in t.timers && !Drops(c, t, Fire(h))
    ensures var next := OnFire(c, t, h);
            (next.reconnect.None? || next.reconnect == t.reconnect) && next.attempt == t.attempt
  {
    assert Owns(t, h, t.timers[h]);
  }

  lemma KeptByDisconnection(c: Config, t: Transport)
    ensures DoDisconnect(c, t).reconnect.None? && DoDisconnect(c, t).attempt == t.attempt
  {
  }

  lemma KeptByMessage(t: Transport, m: Message)
    ensures Receive(t, m).reconnect == t.reconnect && Receive(t, m).attempt == t.attempt
  {
  }

  /** The attempts since the connection was last open. */
  function Attempt(c: Config, t: Transport, e: Event): nat {
    if Opens(t, e) then 0
    else if Drops(c, t, e) && MayReconnect(c, t) then t.attempt + 1 else t.attempt
  }

  /** The first wait is the base and each further one the multiple of the last, up to
      the maximum. */
  lemma DelayMultiplies(c: Config, attempt: nat)
    requires c.base >= 0 && c.multiplier >= 1 && c.max >= 0
    ensures ReconnectDelay(c, 0) == if c.base <= c.max then c.base else c.max
    ensures var longer := c.multiplier * ReconnectDelay(c, attempt);
            ReconnectDelay(c, attempt + 1) == if longer <= c.max then longer else c.max
  {
    SchedulerSpec.PowerGrows(c.multiplier, attempt);
    var power := SchedulerSpec.Power(c.multiplier, attempt);
    var plain := c.base * power;
    SchedulerSpec.Regroup(c.base, c.multiplier, power);
    SchedulerSpec.MultiplyKeepsOrder(c.base, 0, power);
    SchedulerSpec.MultiplyKeepsOrder(plain, 1, c.multiplier);
    SchedulerSpec.MultiplyKeepsOrder(c.max, 1, c.multiplier);
  }

  // ----- Connecting

  /** Connecting cancels a reconnection that is armed. Unless a connection is open or
      under way it opens a new socket, whose loss will be answered with reconnections. */
  lemma ConnectLaw(c: Config, t: Transport)
    requires Sound(c, t) && !t.disposed
    ensures var next := Next(c, t, Connect);
            && next.reconnect.None? && next.pending == t.pending
            && if t.state.CONNECTED? || t.state.CONNECTING?
               then next == t
               else next.state.CONNECTING? && next.ws == Some(t.nextSocket) && next.sockets == map[t.nextSocket := false]
                    && !next.intentionalClose && next.attempt == t.attempt
  {
    assert !(t.state.CONNECTED? || t.state.CONNECTING?) ==> t.ws.None? && t.sockets == map[];
  }

  // ----- Requests

  /** Every request takes an id that none has had; it is accepted, last in line and with a
      timer of its own, exactly if the socket is open. */
  lemma RequestLaw(c: Config, t: Transport)
    requires Sound(c, t)
    ensures var next, id := Next(c, t, Request), t.counter + 1;
            && next.counter == id && id !in t.accepted && next.settled == t.settled
            && (id in next.accepted <==> t.ws.Some? && t.ws.value in t.sockets && t.sockets[t.ws.value])
            && (id !in next.accepted ==> next.pending == t.pending && next.timers == t.timers)
            && (id in next.accepted ==> next.accepted == t.accepted + {id} && next.pending == t.pending + [Pending(id, t.nextTimer)]
                                        && t.nextTimer !in t.timers && next.timers == t.timers[t.nextTimer := ForRequest(id)])
  {
    assert t.counter + 1 !in t.accepted;
  }

  // ----- Heartbeats

  /** A heartbeat runs from the opening of a connection to its loss if the configuration
      asks for one; each beat replaces the watch for a pong, and a pong ends it. */
  lemma {:induction false} HeartbeatLaw(c: Config, t: Transport, e: Event)
    requires Sound(c, t)
    ensures var next := Next(c, t, e);
            && (Opens(t, e) ==> (next.heartbeat.Some? <==> c.heartbeats) && next.pong.None?)
            && (Drops(c, t, e) ==> next.heartbeat.None? && next.pong.None?)
            && (e.Fire? && t.heartbeat == Some(e.timer) ==> next.heartbeat == t.heartbeat && next.pong == Some(t.nextTimer))
            && (Arrives(t, e) && e.message.PongMessage? ==> next == t.(pong := None, timers := next.timers)
                                                             && next.timers.Keys == t.timers.Keys - (if t.pong.Some? then {t.pong.value} else {}))
  {
    if e.Fire? && e.timer in t.timers {
      assert Owns(t, e.timer, t.timers[e.timer]);
    }
  }
}
