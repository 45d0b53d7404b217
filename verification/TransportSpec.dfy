/** The WebSocket transport as a function of its events. Timers and sockets are kept
    as they are outside, beside what the transport remembers of them; `accepted`
    and `settled` record which requests were taken on and which promises were
    resolved or rejected, in order. */
module TransportSpec {
  import opened Json
  import SchedulerSpec

  /** `closesAtOnce`: closing a socket delivers its close event before `close`
      returns. */
  datatype Config = Config(base: int, multiplier: int, max: int, maxAttempts: int, heartbeats: bool, closesAtOnce: bool)

  datatype Link = DISCONNECTED | CONNECTING | CONNECTED | RECONNECTING | DISPOSED

  datatype Timer = ForRequest(id: nat) | Heartbeat | Pong | Reconnect

  datatype Pending = Pending(id: nat, timer: nat)

  datatype Reason = ByClient | TimedOut | ByServer(code: string)

  datatype Settlement = Resolved(id: nat) | Rejected(id: nat, reason: Reason)

  /** `sockets` holds the sockets whose events still arrive, and whether they are
      open; `delay` is the wait of the last reconnection. */
  datatype Transport = Transport(
    ws: Option<nat>, state: Link, counter: nat, pending: seq<Pending>,
    heartbeat: Option<nat>, pong: Option<nat>, reconnect: Option<nat>, attempt: nat,
    intentionalClose: bool, disposed: bool,
    sockets: map<nat, bool>, nextSocket: nat, timers: map<nat, Timer>, nextTimer: nat, delay: int,
    accepted: set<nat>, settled: seq<Settlement>)

  datatype Message = Response(id: nat) | Error(about: Option<nat>, code: string) | PongMessage

  datatype Event =
    | Connect | Disconnect | Dispose | Request
    | Opened(socket: nat) | Closed(socket: nat) | Received(socket: nat, message: Message)
    | Fire(timer: nat)

  const INITIAL := Transport(None, DISCONNECTED, 0, [], None, None, None, 0, false, false, map[], 0, map[], 0, 0, {}, [])

  // ----- Timers

  function Without(timers: map<nat, Timer>, handle: Option<nat>): map<nat, Timer> {
    if handle.Some? then timers - {handle.value} else timers
  }

  function StopHeartbeat(t: Transport): Transport {
    t.(timers := Without(Without(t.timers, t.heartbeat), t.pong), heartbeat := None, pong := None)
  }

  function StartHeartbeat(c: Config, t: Transport): Transport {
    var s := StopHeartbeat(t);
    if !c.heartbeats then s
    else s.(heartbeat := Some(s.nextTimer), timers := s.timers[s.nextTimer := Heartbeat], nextTimer := s.nextTimer + 1)
  }

  function ClearReconnect(t: Transport): Transport {
    t.(timers := Without(t.timers, t.reconnect), reconnect := None)
  }

  function ClearPong(t: Transport): Transport {
    t.(timers := Without(t.timers, t.pong), pong := None)
  }

  function SendPing(t: Transport): Transport {
    var s := ClearPong(t);
    s.(pong := Some(s.nextTimer), timers := s.timers[s.nextTimer := Pong], nextTimer := s.nextTimer + 1)
  }

  // ----- Requests

  function Handles(pending: seq<Pending>): set<nat> {
    set p | p in pending :: p.timer
  }

  function Rejections(pending: seq<Pending>, reason: Reason): seq<Settlement> {
    seq(|pending|, i requires 0 <= i < |pending| => Rejected(pending[i].id, reason))
  }

  function RejectAll(t: Transport, reason: Reason): Transport {
    t.(pending := [], timers := t.timers - Handles(t.pending), settled := t.settled + Rejections(t.pending, reason))
  }

  function FindPending(pending: seq<Pending>, id: nat): Option<nat>
    ensures FindPending(pending, id).Some? ==>
              FindPending(pending, id).value < |pending| && pending[FindPending(pending, id).value].id == id
  {
    if pending == [] then None
    else if pending[|pending| - 1].id == id then Some(|pending| - 1)
    else FindPending(pending[..|pending| - 1], id)
  }

  function Settle(t: Transport, i: nat, settlement: Settlement): Transport
    requires i < |t.pending|
  {
    t.(pending := t.pending[..i] + t.pending[i + 1..], timers := t.timers - {t.pending[i].timer},
       settled := t.settled + [settlement])
  }

  predicate IsOpen(t: Transport) {
    t.ws.Some? && t.ws.value in t.sockets && t.sockets[t.ws.value]
  }

  function NewRequest(t: Transport): Transport {
    var id := t.counter + 1;
    if !IsOpen(t) then t.(counter := id)
    else t.(counter := id, timers := t.timers[t.nextTimer := ForRequest(id)], nextTimer := t.nextTimer + 1,
            pending := t.pending + [Pending(id, t.nextTimer)], accepted := t.accepted + {id})
  }

  function Receive(t: Transport, m: Message): Transport {
    match m
    case Response(id) =>
      var i := FindPending(t.pending, id);
      if i.Some? then Settle(t, i.value, Resolved(id)) else t
    case Error(Some(id), code) =>
      var i := FindPending(t.pending, id);
      if i.Some? then Settle(t, i.value, Rejected(id, ByServer(code))) else RejectAll(t, ByServer(code))
    case Error(None, code) => RejectAll(t, ByServer(code))
    case PongMessage => ClearPong(t)
  }

  // ----- The connection

  function CreateConnection(t: Transport): Transport {
    t.(ws := Some(t.nextSocket), sockets := t.sockets[t.nextSocket := false], nextSocket := t.nextSocket + 1)
  }

  function ReconnectDelay(c: Config, attempt: nat): int {
    SchedulerSpec.Min(c.base * SchedulerSpec.Power(c.multiplier, attempt), c.max)
  }

  function ScheduleReconnect(c: Config, t: Transport): Transport {
    if t.disposed || t.intentionalClose then t
    else if c.maxAttempts > 0 && t.attempt >= c.maxAttempts then t.(state := DISCONNECTED)
    else t.(state := RECONNECTING, delay := ReconnectDelay(c, t.attempt), attempt := t.attempt + 1,
            reconnect := Some(t.nextTimer), timers := t.timers[t.nextTimer := Reconnect], nextTimer := t.nextTimer + 1)
  }

  function OnClose(c: Config, t: Transport): Transport {
    var s := StopHeartbeat(t).(ws := None);
    if s.disposed || s.intentionalClose then (if s.state.DISPOSED? then s else s.(state := DISCONNECTED))
    else ScheduleReconnect(c, s)
  }

  /** Lets go of the socket; its close event still arrives only if it comes at once. */
  function CloseWs(c: Config, t: Transport): Transport {
    if t.ws.None? then t
    else
      var s := t.(ws := None, sockets := t.sockets - {t.ws.value});
      if c.closesAtOnce && t.ws.value in t.sockets then OnClose(c, s) else s
  }

  function DoConnect(t: Transport): Transport {
    if t.disposed then t
    else
      var s := ClearReconnect(t);
      if s.state.CONNECTED? || s.state.CONNECTING? then s
      else CreateConnection(s.(intentionalClose := false, state := CONNECTING))
  }

  function DoDisconnect(c: Config, t: Transport): Transport {
    var s := RejectAll(ClearReconnect(StopHeartbeat(t.(intentionalClose := true))), ByClient);
    CloseWs(c, s).(state := DISCONNECTED)
  }

  function DoDispose(c: Config, t: Transport): Transport {
    DoDisconnect(c, t.(disposed := true)).(state := DISPOSED)
  }

  function OnFire(c: Config, t: Transport, handle: nat): Transport
    requires handle in t.timers
  {
    var s := t.(timers := t.timers - {handle});
    match t.timers[handle]
    case ForRequest(id) =>
      var i := FindPending(t.pending, id);
      if i.Some? then s.(pending := s.pending[..i.value] + s.pending[i.value + 1..], settled := s.settled + [Rejected(id, TimedOut)])
      else s.(settled := s.settled + [Rejected(id, TimedOut)])
    case Heartbeat => SendPing(t)
    case Pong => CloseWs(c, s.(pong := None))
    case Reconnect => CreateConnection(s.(reconnect := None, state := CONNECTING))
  }

  function Next(c: Config, t: Transport, e: Event): Transport {
    match e
    case Connect => DoConnect(t)
    case Disconnect => DoDisconnect(c, t)
    case Dispose => DoDispose(c, t)
    case Request => NewRequest(t)
    case Opened(i) =>
      if i in t.sockets && !t.sockets[i]
      then StartHeartbeat(c, t.(sockets := t.sockets[i := true], attempt := 0, state := CONNECTED)) else t
    case Closed(i) => if i in t.sockets then OnClose(c, t.(sockets := t.sockets - {i})) else t
    case Received(i, m) => if i in t.sockets && t.sockets[i] then Receive(t, m) else t
    case Fire(handle) => if handle in t.timers then OnFire(c, t, handle) else t
  }

  function Run(c: Config, t: Transport, events: seq<Event>): Transport {
    if events == [] then t else Next(c, Run(c, t, events[..|events| - 1]), events[|events| - 1])
  }
}
