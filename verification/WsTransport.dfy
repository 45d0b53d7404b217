/** The WebSocket transport as an object, one method per event,
    proved against TransportSpec. */
module WsTransport {
  import opened Json
  import SchedulerSpec
  import Spec = TransportSpec

  /** Sockets, timers and the promises handed out. */
  class Surroundings {
    var sockets: map<nat, bool>
    var nextSocket: nat
    var timers: map<nat, Spec.Timer>
    var nextTimer: nat
    var accepted: set<nat>
    var settled: seq<Spec.Settlement>

    constructor ()
      ensures sockets == map[] && nextSocket == 0 && timers == map[] && nextTimer == 0 && accepted == {} && settled == []
    {
      sockets, nextSocket, timers, nextTimer, accepted, settled := map[], 0, map[], 0, {}, [];
    }

    method SetTimer(timer: Spec.Timer) returns (handle: nat)
      modifies this`timers, this`nextTimer
      ensures handle == old(nextTimer) && timers == old(timers)[handle := timer] && nextTimer == handle + 1
    {
      handle := nextTimer;
      timers, nextTimer := timers[handle := timer], nextTimer + 1;
    }

    method ClearTimer(handle: nat)
      modifies this`timers
      ensures timers == old(timers) - {handle}
    {
      timers := timers - {handle};
    }

    method OpenSocket() returns (socket: nat)
      modifies this`sockets, this`nextSocket
      ensures socket == old(nextSocket) && sockets == old(sockets)[socket := false] && nextSocket == socket + 1
    {
      socket := nextSocket;
      sockets, nextSocket := sockets[socket := false], nextSocket + 1;
    }

    method Settle(s: Spec.Settlement)
      modifies this`settled
      ensures settled == old(settled) + [s]
    {
      settled := settled + [s];
    }
  }

  class WebSocketSyncTransport {
    const config: Spec.Config
    const world: Surroundings
    var ws: Option<nat>
    var connectionState: Spec.Link
    var messageIdCounter: nat
    var pendingRequests: seq<Spec.Pending>
    var heartbeatTimer: Option<nat>
    var pongTimer: Option<nat>
    var reconnectTimer: Option<nat>
    var reconnectAttempt: nat
    var reconnectDelay: int
    var intentionalClose: bool
    var disposed: bool

    ghost function State(): Spec.Transport
      reads this, world
    {
      Spec.Transport(ws, connectionState, messageIdCounter, pendingRequests, heartbeatTimer, pongTimer, reconnectTimer,
                     reconnectAttempt, intentionalClose, disposed, world.sockets, world.nextSocket,
                     world.timers, world.nextTimer, reconnectDelay, world.accepted, world.settled)
    }

    constructor (config: Spec.Config)
      ensures this.config == config && fresh(world) && State() == Spec.INITIAL
    {
      this.config := config;
      world := new Surroundings();
      ws, connectionState, messageIdCounter, pendingRequests := None, Spec.DISCONNECTED, 0, [];
      heartbeatTimer, pongTimer, reconnectTimer := None, None, None;
      reconnectAttempt, reconnectDelay, intentionalClose, disposed := 0, 0, false, false;
    }

    // ----- Called by the client

    method Connect() returns (threw: bool)
      modifies this, world
      ensures State() == Spec.Next(config, old(State()), Spec.Connect) && threw == old(disposed)
    {
      if disposed {
        return true;
      }
      ClearReconnectTimer();
      if connectionState.CONNECTED? || connectionState.CONNECTING? {
        return false;
      }
      intentionalClose := false;
      connectionState := Spec.CONNECTING;
      CreateConnection();
      return false;
    }

    method Disconnect()
      modifies this, world
      ensures State() == Spec.Next(config, old(State()), Spec.Disconnect)
    {
      intentionalClose := true;
      StopHeartbeat();
      ClearReconnectTimer();
      RejectAllPending(Spec.ByClient);
      CloseWs();
      connectionState := Spec.DISCONNECTED;
    }

    method Dispose()
      modifies this, world
      ensures State() == Spec.Next(config, old(State()), Spec.Dispose)
    {
      disposed := true;
      Disconnect();
      connectionState := Spec.DISPOSED;
    }

    /** A promise for the id is pending, or it was rejected at once. */
    method Request() returns (id: nat, pending: bool)
      modifies this, world
      ensures State() == Spec.Next(config, old(State()), Spec.Request)
      ensures id == messageIdCounter == old(messageIdCounter) + 1 && (pending <==> Spec.IsOpen(old(State())))
    {
      messageIdCounter := messageIdCounter + 1;
      id := messageIdCounter;
      if ws.None? || ws.value !in world.sockets || !world.sockets[ws.value] {
        return id, false;
      }
      var timer := world.SetTimer(Spec.ForRequest(id));
      pendingRequests := pendingRequests + [Spec.Pending(id, timer)];
      world.accepted := world.accepted + {id};
      return id, true;
    }

    // ----- Called by the socket

    method OnOpen(socket: nat)
      requires socket in world.sockets && !world.sockets[socket]
      modifies this, world
      ensures State() == Spec.Next(config, old(State()), Spec.Opened(socket))
    {
      world.sockets := world.sockets[socket := true];
      reconnectAttempt := 0;
      connectionState := Spec.CONNECTED;
      StartHeartbeat();
    }

    method CloseEvent(socket: nat)
      requires socket in world.sockets
      modifies this, world
      ensures State() == Spec.Next(config, old(State()), Spec.Closed(socket))
    {
      world.sockets := world.sockets - {socket};
      OnClose();
    }

    method OnMessage(socket: nat, m: Spec.Message)
      requires socket in world.sockets && world.sockets[socket]
      modifies this, world
      ensures State() == Spec.Next(config, old(State()), Spec.Received(socket, m))
    {
      match m {
        case Response(id) => HandleResponse(id);
        case Error(about, code) => HandleServerError(about, code);
        case PongMessage => ClearPongTimer();
      }
    }

    method HandleResponse(id: nat)
      modifies this, world
      ensures State() == Spec.Receive(old(State()), Spec.Response(id))
    {
      var i := Spec.FindPending(pendingRequests, id);
      if i.None? {
        return;
      }
      var timer := pendingRequests[i.value].timer;
      pendingRequests := pendingRequests[..i.value] + pendingRequests[i.value + 1..];
      world.ClearTimer(timer);
      world.Settle(Spec.Resolved(id));
    }

    /** An error about no pending request rejects them all. */
    method HandleServerError(about: Option<nat>, code: string)
      modifies this, world
      ensures State() == Spec.Receive(old(State()), Spec.Error(about, code))
    {
      if about.Some? {
        var i := Spec.FindPending(pendingRequests, about.value);
        if i.Some? {
          var timer := pendingRequests[i.value].timer;
          pendingRequests := pendingRequests[..i.value] + pendingRequests[i.value + 1..];
          world.ClearTimer(timer);
          world.Settle(Spec.Rejected(about.value, Spec.ByServer(code)));
          return;
        }
      }
      RejectAllPending(Spec.ByServer(code));
    }

    // ----- Called by a timer

    method Fire(handle: nat)
      requires handle in world.timers
      modifies this, world
      ensures State() == Spec.Next(config, old(State()), Spec.Fire(handle))
    {
      var timer := world.timers[handle];
      if !timer.Heartbeat? {
        world.ClearTimer(handle);
      }
      match timer {
        case ForRequest(id) => OnTimeout(id);
        case Heartbeat => SendPing();
        case Pong =>
          pongTimer := None;
          CloseWs();
        case Reconnect =>
          reconnectTimer := None;
          connectionState := Spec.CONNECTING;
          CreateConnection();
      }
    }

    method OnTimeout(id: nat)
      modifies this`pendingRequests, world`settled
      ensures world.settled == old(world.settled) + [Spec.Rejected(id, Spec.TimedOut)]
      ensures var before := old(pendingRequests);
              var i := Spec.FindPending(before, id);
              pendingRequests == if i.Some? then before[..i.value] + before[i.value + 1..] else before
    {
      var i := Spec.FindPending(pendingRequests, id);
      if i.Some? {
        pendingRequests := pendingRequests[..i.value] + pendingRequests[i.value + 1..];
      }
      world.Settle(Spec.Rejected(id, Spec.TimedOut));
    }

    // ----- The connection

    method CreateConnection()
      modifies this`ws, world`sockets, world`nextSocket
      ensures State() == Spec.CreateConnection(old(State()))
    {
      var socket := world.OpenSocket();
      ws := Some(socket);
    }

    /** Forgets the socket, closes it, and then stops listening to it. */
    method CloseWs()
      modifies this, world`sockets, world`timers, world`nextTimer
      ensures State() == Spec.CloseWs(config, old(State()))
    {
      var socket := ws;
      ws := None;
      if socket.Some? {
        var alive := socket.value in world.sockets;
        world.sockets := world.sockets - {socket.value};
        if alive && config.closesAtOnce {
          OnClose();
        }
      }
    }

    method OnClose()
      modifies this, world`timers, world`nextTimer
      ensures State() == Spec.OnClose(config, old(State()))
    {
      StopHeartbeat();
      ws := None;
      if disposed || intentionalClose {
        if !connectionState.DISPOSED? {
          connectionState := Spec.DISCONNECTED;
        }
        return;
      }
      ScheduleReconnect();
    }

    method ScheduleReconnect()
      modifies this, world`timers, world`nextTimer
      ensures State() == Spec.ScheduleReconnect(config, old(State()))
    {
      if disposed || intentionalClose {
        return;
      }
      if config.maxAttempts > 0 && reconnectAttempt >= config.maxAttempts {
        connectionState := Spec.DISCONNECTED;
        return;
      }
      connectionState := Spec.RECONNECTING;
      reconnectDelay := SchedulerSpec.Min(config.base * SchedulerSpec.Power(config.multiplier, reconnectAttempt), config.max);
      reconnectAttempt := reconnectAttempt + 1;
      var timer := world.SetTimer(Spec.Reconnect);
      reconnectTimer := Some(timer);
    }

    method ClearReconnectTimer()
      modifies this`reconnectTimer, world`timers
      ensures State() == Spec.ClearReconnect(old(State()))
    {
      if reconnectTimer.Some? {
        world.ClearTimer(reconnectTimer.value);
        reconnectTimer := None;
      }
    }

    // ----- Heartbeat

    method StartHeartbeat()
      modifies this`heartbeatTimer, this`pongTimer, world`timers, world`nextTimer
      ensures State() == Spec.StartHeartbeat(config, old(State()))
    {
      StopHeartbeat();
      if config.heartbeats {
        var timer := world.SetTimer(Spec.Heartbeat);
        heartbeatTimer := Some(timer);
      }
    }

    method StopHeartbeat()
      modifies this`heartbeatTimer, this`pongTimer, world`timers
      ensures State() == Spec.StopHeartbeat(old(State()))
    {
      if heartbeatTimer.Some? {
        world.ClearTimer(heartbeatTimer.value);
        heartbeatTimer := None;
      }
      ClearPongTimer();
    }

    method SendPing()
      modifies this`pongTimer, world`timers, world`nextTimer
      ensures State() == Spec.SendPing(old(State()))
    {
      ClearPongTimer();
      var timer := world.SetTimer(Spec.Pong);
      pongTimer := Some(timer);
    }

    method ClearPongTimer()
      modifies this`pongTimer, world`timers
      ensures State() == Spec.ClearPong(old(State()))
    {
      if pongTimer.Some? {
        world.ClearTimer(pongTimer.value);
        pongTimer := None;
      }
    }

    // ----- Rejecting everything

    method RejectAllPending(reason: Spec.Reason)
      modifies this`pendingRequests, world`timers, world`settled
      ensures State() == Spec.RejectAll(old(State()), reason)
    {
      var all := pendingRequests;
      for i := 0 to |all|
        invariant pendingRequests == all[i..]
        invariant world.timers == old(world.timers) - Spec.Handles(all[..i])
        invariant world.settled == old(world.settled) + Spec.Rejections(all[..i], reason)
        invariant State() == old(State()).(pending := pendingRequests, timers := world.timers, settled := world.settled)
      {
        pendingRequests := pendingRequests[1..];
        world.ClearTimer(all[i].timer);
        world.Settle(Spec.Rejected(all[i].id, reason));
        RejectOne(all, i, reason);
      }
      assert all[..|all|] == all;
    }
  }

  lemma RejectOne(all: seq<Spec.Pending>, i: nat, reason: Spec.Reason)
    requires i < |all|
    ensures Spec.Handles(all[..i + 1]) == Spec.Handles(all[..i]) + {all[i].timer}
    ensures Spec.Rejections(all[..i + 1], reason) == Spec.Rejections(all[..i], reason) + [Spec.Rejected(all[i].id, reason)]
  {
    assert all[..i + 1] == all[..i] + [all[i]];
  }
}
