/** `NetworkManager`: the wire types shared with the server, the priority
    dispatch of an incoming message to at most one event, and the `ws` field that
    gates `connect` and `send`. The WebSocket itself and JSON parsing are the
    transport's: a parsed frame arrives as an `Option<ServerMessage>` and a socket
    is seen only through its ready-state. */
module Network {
  import opened Wrappers
  import opened Events

  /** A position as it arrives on the wire: `[x, y]` or `{x, y}`. */
  datatype Position = Pair(first: real, second: real) | Point(x: real, y: real)

  /** A player record. `mana` and `max_mana` are read by the engine although the
      declared interface does not list them; a missing one is `None`. */
  datatype PlayerState = PlayerState(
    id: int, name: string, position: Position,
    health: int, maxHealth: int, mana: Option<int>, maxMana: Option<int>)

  datatype EnemyState = EnemyState(id: int, position: Position, health: int, maxHealth: int)

  datatype ProjectileState = ProjectileState(id: int, position: Position)

  /** The body of a `Snapshot` message; `enemies` and `projectiles` may be absent. */
  datatype SnapshotData = SnapshotData(
    tick: int, players: seq<PlayerState>,
    enemies: Option<seq<EnemyState>>, projectiles: Option<seq<ProjectileState>>)

  datatype PlayerJoinedData = PlayerJoinedData(id: int, name: string, position: Position)

  datatype PlayerLeftData = PlayerLeftData(id: int)

  datatype ChatData = ChatData(id: int, text: string)

  /** A parsed `ServerEvent` object. Each key is `None` when it is absent or
      falsy and `Some` when it holds an object (objects are always truthy), so
      several keys may be present at once. */
  datatype ServerMessage = ServerMessage(
    snapshot: Option<SnapshotData>, playerJoined: Option<PlayerJoinedData>,
    playerLeft: Option<PlayerLeftData>, chat: Option<ChatData>)

  datatype CastSpellData = CastSpellData(spell: Option<string>, target: (real, real))

  /** A `ClientCommand` object; `send` passes it on whole. */
  datatype ClientCommand = ClientCommand(
    join: Option<string>, move: Option<(real, real)>,
    castSpell: Option<CastSpellData>, chat: Option<string>)

  /** The argument an emitted event carries. */
  datatype Payload =
    | SnapshotPayload(snapshot: SnapshotData)
    | JoinedPayload(joined: PlayerJoinedData)
    | LeftPayload(left: PlayerLeftData)
    | ChatPayload(chat: ChatData)

  /** One `emit(event, payload)`. */
  datatype Dispatch = Dispatch(event: string, payload: Payload)

  /** `WebSocket.readyState`. */
  datatype ReadyState = Connecting | Open | Closing | Closed

  /** The event names of the four message keys, highest priority first. */
  const Topics: seq<string> := ["snapshot", "playerJoined", "playerLeft", "chat"]

  /** The payload the message carries under the key of priority `k`, if that key
      is truthy. */
  function Carried(msg: ServerMessage, k: nat): Option<Payload>
    requires k < |Topics|
  {
    if k == 0 then (if msg.snapshot.Some? then Some(SnapshotPayload(msg.snapshot.value)) else None)
    else if k == 1 then (if msg.playerJoined.Some? then Some(JoinedPayload(msg.playerJoined.value)) else None)
    else if k == 2 then (if msg.playerLeft.Some? then Some(LeftPayload(msg.playerLeft.value)) else None)
    else (if msg.chat.Some? then Some(ChatPayload(msg.chat.value)) else None)
  }

  /** `handleMessage`: at most one event, chosen as the first truthy key in the
      order Snapshot, PlayerJoined, PlayerLeft, Chat, carrying that key's
      value. */
  function HandleMessage(msg: ServerMessage): (d: Option<Dispatch>)
    ensures d.None? <==> forall k :: 0 <= k < |Topics| ==> Carried(msg, k).None?
    ensures d.Some? ==>
      exists k :: 0 <= k < |Topics| && Carried(msg, k) == Some(d.value.payload)
        && d.value.event == Topics[k]
        && forall j :: 0 <= j < k ==> Carried(msg, j).None?
  {
    if msg.snapshot.Some? then
      assert Carried(msg, 0).Some?;
      Some(Dispatch("snapshot", SnapshotPayload(msg.snapshot.value)))
    else if msg.playerJoined.Some? then
      assert Carried(msg, 1).Some? && Carried(msg, 0).None?;
      Some(Dispatch("playerJoined", JoinedPayload(msg.playerJoined.value)))
    else if msg.playerLeft.Some? then
      assert Carried(msg, 2).Some? && Carried(msg, 1).None? && Carried(msg, 0).None?;
      Some(Dispatch("playerLeft", LeftPayload(msg.playerLeft.value)))
    else if msg.chat.Some? then
      assert Carried(msg, 3).Some? && Carried(msg, 2).None? && Carried(msg, 1).None? && Carried(msg, 0).None?;
      Some(Dispatch("chat", ChatPayload(msg.chat.value)))
    else
      assert Carried(msg, 3).None? && Carried(msg, 2).None? && Carried(msg, 1).None? && Carried(msg, 0).None?;
      None
  }

  /** A truthy `Snapshot` decides the dispatch, whatever else the message holds. */
  lemma SnapshotWins(msg: ServerMessage)
    requires msg.snapshot.Some?
    ensures HandleMessage(msg) == Some(Dispatch("snapshot", SnapshotPayload(msg.snapshot.value)))
  {
  }

  class NetworkManager {
    /** The inherited `EventEmitter` part. */
    const emitter: EventEmitter
    /** `ws`: `None` is `null`, otherwise the ready-state of the current socket. */
    var ws: Option<ReadyState>

    constructor ()
      ensures ws == None && fresh(emitter) && emitter.listeners == map[]
    {
      emitter := new EventEmitter();
      ws := None;
    }

    /** `connect`: nothing while a socket exists, otherwise a new socket that
        starts out connecting. */
    method Connect()
      modifies this
      ensures old(ws).Some? ==> ws == old(ws)
      ensures old(ws).None? ==> ws == Some(Connecting)
      ensures unchanged(emitter)
    {
      if ws.Some? {
        return;
      }
      ws := Some(Connecting);
    }

    /** The socket's `onopen`: the socket has become OPEN and `'connected'` is
        emitted to its listeners, which are returned in call order. */
    method OnOpen() returns (invoked: seq<Listener>)
      modifies this
      ensures ws == if old(ws).Some? then Some(Open) else None
      ensures invoked == ListenersOf(emitter.listeners, "connected")
      ensures unchanged(emitter)
    {
      if ws.Some? {
        ws := Some(Open);
      }
      invoked := emitter.Emit("connected");
    }

    /** The socket's `onmessage`: the frame is parsed (a parse failure is caught
        and dropped) and handed to `handleMessage`. Returns the event emitted, if
        any, and the listeners it reached. */
    method OnMessage(frame: Option<ServerMessage>) returns (d: Option<Dispatch>, invoked: seq<Listener>)
      ensures frame.None? ==> d.None? && invoked == []
      ensures frame.Some? ==> d == HandleMessage(frame.value)
      ensures d.Some? ==> invoked == ListenersOf(emitter.listeners, d.value.event)
      ensures d.None? ==> invoked == []
    {
      invoked := [];
      if frame.None? {
        d := None;
        return;
      }
      d := HandleMessage(frame.value);
      if d.Some? {
        invoked := emitter.Emit(d.value.event);
      }
    }

    /** The socket's `onclose`: emits `'disconnected'` and clears `ws`. The
        handler does not check which socket closed, so it clears `ws` even when a
        newer socket has replaced the one that fired it. */
    method OnClose() returns (invoked: seq<Listener>)
      modifies this
      ensures ws == None
      ensures invoked == ListenersOf(emitter.listeners, "disconnected")
      ensures unchanged(emitter)
    {
      invoked := emitter.Emit("disconnected");
      ws := None;
    }

    /** `send`: the frame handed to the socket, which is the command itself, and
        only when the socket is OPEN; otherwise the command is dropped. */
    method Send(cmd: ClientCommand) returns (frame: Option<ClientCommand>)
      ensures frame.Some? <==> ws == Some(Open)
      ensures frame.Some? ==> frame.value == cmd
    {
      if ws == Some(Open) {
        frame := Some(cmd);
      } else {
        frame := None;
      }
    }

    /** `disconnect`: asks the socket, if any, to close and clears `ws` at once;
        no event is emitted here. */
    method Disconnect()
      modifies this
      ensures ws == None
      ensures unchanged(emitter)
    {
      ws := None;
    }
  }
}
