# State sync of the mmo-web client, modelled in Dafny

This project models the client-side state-sync core of the `mmo-web` browser
client of a multiplayer game. The core has three parts:

- **The snapshot buffer and one render update** (`GameEngine`, module `Engine`
  in `game_engine.dfy`). `onSnapshot` stamps each incoming world snapshot with
  its local arrival time and keeps the newest 30 of them. `update` renders at
  `now - 100` ms. With fewer than two snapshots it does nothing. Past the newest
  snapshot it freezes there. Otherwise it takes the first adjacent pair that
  brackets the render time, falling back to the two oldest. It computes a
  clamped interpolation factor and rebuilds the render state from that pair.
  Players and enemies are keyed by id from the newer snapshot. Their positions
  are interpolated from the older snapshot's first entity with the same id, and
  their health, mana and name snap to the newer value. Projectiles are the older
  snapshot's list.
- **The listener registry** (`EventEmitter`, module `Events` in
  `event_emitter.dfy`). It is a dictionary from event name to a list of
  listeners. `on` appends, `off` filters out every occurrence, and `emit` calls
  the list in order.
- **Message dispatch and the socket guard** (`NetworkManager`, module
  `Network` in `network_manager.dfy`). `handleMessage` emits at most one
  event, picking the first truthy key in the order Snapshot, PlayerJoined,
  PlayerLeft, Chat. A frame that fails to parse is dropped. `send` transmits
  only on an OPEN socket. `connect`, `disconnect` and `onclose` maintain the
  `ws` field.

Modelling choices:

- Time is an integer number of milliseconds. `Date.now()` becomes the parameter
  `now`.
- Coordinates are `real`. IEEE special values (infinities, NaN) are modelled
  only in the interpolation factor: its division can produce a signed infinity
  or NaN, and `Engine.Divide` writes those cases out (see Findings).
- In the source, `s1 === s2` compares references. The model compares the
  buffer indices of the two chosen snapshots.
- A listener is an identity (`nat`). `emit` returns the sequence of listeners
  it calls.
- The WebSocket is represented by its ready-state. A parsed frame arrives as
  `Option<ServerMessage>`, where `None` is a frame that `JSON.parse` rejected.
  A message key holding an object is `Some`, and an absent or falsy key is
  `None`. Each payload is assumed to have its declared shape (see "Left out").
- `Map.set` lets a later duplicate id overwrite an earlier one.
  `Engine.Rebuild` models this as a fold over the newer snapshot's list.
  `Array.find` returns the first match, modelled by `Engine.FindIndex`.
- The methods `Engine.SelectPair` (the bracket scan with early exit) and
  `Engine.RebuildMap` (the `forEach`/`set` loop) are each proved equal to a
  specification function: `Engine.Bracket` and `Engine.Rebuild`.
  `Engine.GameEngine.Update` is proved equal to `Engine.NextRenderState`. The
  lemmas state the properties of those functions.

## Model

| member | source | states |
|---|---|---|
| `Events.Without` | mmo-web/src/EventEmitter.ts:13 | the filtered list holds no occurrence of the listener; every other listener keeps its number of occurrences; the list is unchanged when the listener was absent |
| `Events.WithoutDistributes` | mmo-web/src/EventEmitter.ts:13 | filtering commutes with concatenation, so the remaining listeners keep their original relative order |
| `Events.Register` | mmo-web/src/EventEmitter.ts:6-9 | `on` appends the listener to the end of the event's list, creating the list when missing; every other event's list is unchanged |
| `Events.Unregister` | mmo-web/src/EventEmitter.ts:11-14 | `off` replaces the event's list with its filtered copy; no other list changes and no key is added or removed; an event without a list leaves the registry unchanged |
| `Events.RegisterAllAppends` | mmo-web/src/EventEmitter.ts:6-9 | a run of `on` calls stores its listeners in call order after those already there, and leaves other events alone |
| `Events.OnTwiceStoresTwice` | mmo-web/src/EventEmitter.ts:8 | there is no de-duplication: the same listener registered twice is stored twice |
| `Events.OffUnregisteredIsNoOp` | mmo-web/src/EventEmitter.ts:11-14 | `off` for a listener not stored under the event, including an event with no list, leaves the registry equal to what it was |
| `Events.OffAfterOn` | mmo-web/src/EventEmitter.ts:6-14 | `off` after `on` of the same listener leaves none of its occurrences; the event's other listeners are the earlier ones, in their order |
| `Events.EventEmitter.constructor` | mmo-web/src/EventEmitter.ts:4 | the registry starts empty |
| `Events.EventEmitter.On` | mmo-web/src/EventEmitter.ts:6-9 | the new registry is `Register` of the old one |
| `Events.EventEmitter.Off` | mmo-web/src/EventEmitter.ts:11-14 | the new registry is `Unregister` of the old one |
| `Events.EventEmitter.Emit` | mmo-web/src/EventEmitter.ts:16-19 | `emit` calls exactly the event's stored listeners, once per stored occurrence and in registration order; an event with no list calls nothing; the registry is not changed |
| `Network.HandleMessage` | mmo-web/src/NetworkManager.ts:80-90 | no event exactly when none of the four keys is truthy; otherwise one event, named after the first truthy key in priority order Snapshot, PlayerJoined, PlayerLeft, Chat, carrying that key's value |
| `Network.SnapshotWins` | mmo-web/src/NetworkManager.ts:81-82 | a message with a truthy `Snapshot` emits just `'snapshot'` with its payload, whatever other keys it holds |
| `Network.NetworkManager.constructor` | mmo-web/src/NetworkManager.ts:36-42 | a new manager has no socket and an empty registry |
| `Network.NetworkManager.Connect` | mmo-web/src/NetworkManager.ts:44-46 | `connect` does nothing while a socket exists; otherwise the new socket starts out connecting |
| `Network.NetworkManager.OnOpen` | mmo-web/src/NetworkManager.ts:48-51 | the socket is open, and the `'connected'` listeners are called in order |
| `Network.NetworkManager.OnMessage` | mmo-web/src/NetworkManager.ts:53-60 | a frame that failed to parse emits nothing and calls no listener; a parsed frame emits what `HandleMessage` picks, to that event's listeners; no error escapes |
| `Network.NetworkManager.OnClose` | mmo-web/src/NetworkManager.ts:62-66 | `onclose` calls the `'disconnected'` listeners and clears `ws` |
| `Network.NetworkManager.Send` | mmo-web/src/NetworkManager.ts:69-73 | a command is transmitted, unchanged, exactly when the socket is OPEN, and silently dropped in every other state, including no socket |
| `Network.NetworkManager.Disconnect` | mmo-web/src/NetworkManager.ts:75-78 | `disconnect` clears `ws` and emits nothing |
| `Engine.GetPos` | mmo-web/src/GameEngine.ts:65-68 | `getPos` reads the first component of an `[x, y]` pair as x and the second as y, and an `{x, y}` object by its fields |
| `Engine.GetPosShapeIndependent` | mmo-web/src/GameEngine.ts:65-68 | a position given as `[a, b]` and one given as `{x: a, y: b}` normalise to the same vector `(a, b)` |
| `Engine.Pushed` | mmo-web/src/GameEngine.ts:43-50 | after a push the new snapshot is last; below capacity the snapshot is appended; at capacity exactly the oldest entry is dropped and the rest keep their order; a buffer within capacity stays within it |
| `Engine.PushedKeepsTimeOrder` | mmo-web/src/GameEngine.ts:44-46 | with a clock that does not run backwards, arrival times along the buffer stay non-decreasing |
| `Engine.NewestDropsOldest` | mmo-web/src/GameEngine.ts:49 | shifting off the oldest of more than 30 snapshots does not change the newest 30 |
| `Engine.NewestKeepsTimeOrder` | mmo-web/src/GameEngine.ts:49 | the retained newest entries of an ordered sequence are ordered |
| `Engine.PushAllKeepsNewest` | mmo-web/src/GameEngine.ts:43-50 | after any run of pushes the buffer is exactly the newest 30 of everything pushed, in arrival order; it never exceeds 30 and is time-ordered when the arrivals were |
| `Engine.FirstBracket` | mmo-web/src/GameEngine.ts:84-90 | the scan returns the smallest index whose adjacent pair brackets the render time, or none when no pair does |
| `Engine.Bracket` | mmo-web/src/GameEngine.ts:77-91 | past the newest snapshot both indices are the newest; otherwise the pair is adjacent and is the first bracketing pair, or `(0, 1)` when there is none |
| `Engine.BracketExists` | mmo-web/src/GameEngine.ts:84-90 | in an ordered buffer, once the render time lies between some snapshot and the newest one, the scan finds a bracketing pair |
| `Engine.BracketCoversRenderTime` | mmo-web/src/GameEngine.ts:77-91 | in an ordered buffer, for a render time no later than the newest snapshot, the chosen pair brackets it exactly when it is not before the oldest snapshot, so the `(0, 1)` fallback serves only render times older than the buffer |
| `Engine.SelectPair` | mmo-web/src/GameEngine.ts:77-91 | the freeze test and the scan with `break` choose the pair `Bracket` specifies |
| `Engine.Divide` | mmo-web/src/GameEngine.ts:93 | the quotient is finite exactly when the divisor is non-zero, and then times the divisor gives the numerator; over zero it is +∞, −∞ or NaN as the numerator is positive, negative or zero |
| `Engine.Clamp01` | mmo-web/src/GameEngine.ts:94 | the clamp yields a value in [0, 1] for every quotient except NaN, which it propagates; a quotient already in [0, 1] is kept; +∞ or a quotient above 1 gives 1; −∞ or a quotient below 0 gives 0 |
| `Engine.FactorAsWritten` | mmo-web/src/GameEngine.ts:93-94 | the source's `clampedT` is NaN exactly for two distinct snapshots with equal arrival times and a render time at that time; in every other case it lies in [0, 1] |
| `Engine.EqualTimesGiveNaN` | mmo-web/src/GameEngine.ts:84-94 | two buffered snapshots stamped 1000 and a render time of 1000 are chosen as the pair and give NaN |
| `Engine.InterpolationFactor` | mmo-web/src/GameEngine.ts:93-94 | the factor always lies in [0, 1]; it is 0 for the same snapshot; it agrees with the source wherever the source gives a number; inside the bracket it is the plain ratio of elapsed to total time; at or beyond an end point it is 0 or 1 |
| `Engine.RatioBounds` | mmo-web/src/GameEngine.ts:93 | with a positive divisor, the quotient is at most 0, at least 1, or in [0, 1] as the numerator is at most 0, at least the divisor, or between them |
| `Engine.LerpBetween` | mmo-web/src/GameEngine.ts:102-103 | with a factor in [0, 1] the interpolated coordinate lies between the two end points and never overshoots |
| `Engine.Blend` | mmo-web/src/GameEngine.ts:99-107 | an entity with no earlier position keeps its newer one; with factor 0 the earlier position is shown, with factor 1 the newer; in between each coordinate lies between the two |
| `Engine.FindIndex` | mmo-web/src/GameEngine.ts:98 | `find` returns the first element with the id, or none when no element has it |
| `Engine.ReconcilePlayer` | mmo-web/src/GameEngine.ts:97-109 | hp, max, mana, max_mana and name are the newer player's; the position is blended from the first older player with the same id, or is the newer raw position when there is none |
| `Engine.ReconcileEnemy` | mmo-web/src/GameEngine.ts:113-125 | hp and max are the newer enemy's; the position is blended from the first older enemy with the same id, or is the newer raw position when there is none |
| `Engine.Rebuild` | mmo-web/src/GameEngine.ts:96-125 | every entry of the map filled by `forEach`/`set` belongs to some element of the list with that id and is that element's rendering |
| `Engine.RebuildKeys` | mmo-web/src/GameEngine.ts:96-110 | the rebuilt map's keys are exactly the ids in the newer list |
| `Engine.RebuildLastWins` | mmo-web/src/GameEngine.ts:104-107 | each id maps to the rendering of the last element carrying it; a later duplicate overwrites an earlier one |
| `Engine.RebuildMap` | mmo-web/src/GameEngine.ts:96-109 | the `forEach`/`set` loop builds the map `Rebuild` specifies |
| `Engine.ProjectilePositions` | mmo-web/src/GameEngine.ts:128 | projectiles are the older snapshot's list passed through `getPos`, element by element and in order, or empty when the list is absent |
| `Engine.Reconcile` | mmo-web/src/GameEngine.ts:96-128 | every displayed player and enemy is an entity of the newer snapshot with that id, reconciled against the older snapshot by `ReconcilePlayer` or `ReconcileEnemy` |
| `Engine.NextRenderState` | mmo-web/src/GameEngine.ts:70-129 | with two or more snapshots nothing is drawn that the newer chosen snapshot does not hold: each displayed player has the id, health and name of one of its players, each enemy the id and health of one of its enemies |
| `Engine.TooFewSnapshotsKeepsRenderState` | mmo-web/src/GameEngine.ts:75 | with fewer than two snapshots the render state is left exactly as it was |
| `Engine.RenderStateReplaced` | mmo-web/src/GameEngine.ts:96-128 | the player and enemy key sets are exactly the newer snapshot's ids, so an id present only in the older snapshot is absent; no enemy list gives an empty map; projectiles come from the older snapshot |
| `Engine.PlayersReconciled` | mmo-web/src/GameEngine.ts:96-110 | each displayed player is the newer snapshot's last player with that id, reconciled against the older snapshot by `ReconcilePlayer` |
| `Engine.EnemiesReconciled` | mmo-web/src/GameEngine.ts:112-126 | each displayed enemy is the newer snapshot's last enemy with that id, reconciled against the older snapshot's enemies by `ReconcileEnemy` |
| `Engine.FrozenAtNewest` | mmo-web/src/GameEngine.ts:80-82 | past the newest snapshot, a player whose id occurs once there is shown with exactly its raw position and attributes |
| `Engine.FrozenEnemiesAtNewest` | mmo-web/src/GameEngine.ts:80-82 | past the newest snapshot, an enemy whose id occurs once there is shown with exactly its raw position and attributes |
| `Engine.DuplicateIdMixesRecords` | mmo-web/src/GameEngine.ts:80-107 | past the newest snapshot, two records with id 1 there give one displayed player with the first record's position and the last record's health and name |
| `Engine.HalfwayFrame` | mmo-web/src/GameEngine.ts:93-104 | a player moving from (0, 0) with 100 hp to (10, 0) with 80 hp, sent once as `[x, y]` and once as `{x, y}` and rendered half-way between the two arrivals, is drawn at (5, 0) with 80 hp |
| `Engine.GameEngine.constructor` | mmo-web/src/GameEngine.ts:21-25 | the engine starts with an empty buffer and empty render state, and its snapshot handler is registered for `'snapshot'` |
| `Engine.GameEngine.OnSnapshot` | mmo-web/src/GameEngine.ts:43-50 | the buffer becomes `Pushed` of the old buffer with the snapshot stamped `now`, and stays within 30 entries |
| `Engine.GameEngine.Update` | mmo-web/src/GameEngine.ts:70-129 | the render state becomes `NextRenderState` of the buffer, `now` and the previous render state; the buffer is not touched |

## Left out

- Canvas painting in `draw` (tile map, fallback grid, health and mana bars) is not modelled. It is pixel output with no stated contract.
- `loadMap`/`fetch` are not modelled; they are asynchronous I/O.
- The `requestAnimationFrame` loop, `stop` and `setupInput` are not modelled. They are frame-clock and DOM plumbing; the model covers one `update` call with `now` given.
- The snapshot handler registered by the `GameEngine` constructor is an identity. Calling it from `emit` and the `onSnapshot` push that follows are separate steps in the model.
- `JSON.parse`, `JSON.stringify` and the WebSocket object are not modelled; they are foreign APIs. A parse failure, or a parse result such as `null` whose property read throws, is the frame `None`.
- Errors thrown by listeners are not modelled; every listener is taken to return normally. In the source, a listener called from `onmessage` is inside its `try`, and the error is logged and dropped. The `'connected'` and `'disconnected'` listeners run outside any `try` (NetworkManager.ts:50, :64).
- `Network.NetworkManager.OnClose`: `ensures ws == None` holds only when the `'disconnected'` listeners return normally. If one of them throws, the source never reaches `this.ws = null`. `ws` then keeps the closed socket, and every later `connect()` returns at once until `disconnect()` clears `ws`. The model does not capture this.
- Payload shapes are assumed, and the source does not check them. `handleMessage` tests only that a key is truthy. So `{"Snapshot": {"tick": 1}}` is emitted and buffered by `onSnapshot`, and once chosen as the newer snapshot it makes `update` throw at `s2.data.players.forEach`. Likewise `{"Chat": "hi"}` emits `'chat'` with a string. `ServerMessage` and `SnapshotData` cannot express such messages, so the model covers only well-formed payloads.
- Two transitions of a real socket are missing: the move to CLOSING or CLOSED before `onclose` fires, and `onopen` of a socket that is no longer current. No method produces those states. `Send`'s contract still covers every ready-state.
- Re-entrant `on`/`off` calls made by a listener during `emit` are not modelled. Their effect depends on JavaScript array aliasing, and the source promises nothing about them.
- Event names that collide with inherited `Object.prototype` properties (such as `"constructor"`) are not modelled. In the source those lookups are truthy before any `on` call.
- The iteration order of the player and enemy `Map`s is not modelled. They are Dafny maps, and the order matters only for painting.
- IEEE rounding is not modelled: coordinates and the non-degenerate quotient are exact reals. Infinity and NaN are modelled only in the interpolation factor.
- `App.tsx`, `components/Chat.tsx` and `components/Login.tsx` are not part of this model. They are React UI components and an earlier socket prototype.
- `Engine.FrozenAtNewest` and `Engine.FrozenEnemiesAtNewest` require the entity's id to occur once in the newest snapshot, because the freeze property fails for a repeated id. `find` takes the position from the first record with the id (GameEngine.ts:98), while `Map.set` keeps the attributes of the last (:104). So a newest snapshot holding `{id 1, (0, 0), hp 100, "a"}` and then `{id 1, (5, 5), hp 50, "b"}`, rendered after it, draws id 1 at (0, 0) with hp 50 and name "b", which matches neither record. `Engine.DuplicateIdMixesRecords` proves this frame.
- `Engine.InterpolationFactor`: returns 0 where the source's factor is NaN. This is the correction recorded under Findings. `Engine.FactorAsWritten` keeps the source's behaviour.
- `Engine.NextRenderState` and `Engine.GameEngine.Update` use the corrected factor. So for two distinct snapshots with equal arrival times and the render time at that time, they draw each matched entity at its older position. The source draws it at NaN (GameEngine.ts:102-103).

## Findings

| source | as written | input that shows it | evidently intended | confidence | as-written member | corrected member |
|---|---|---|---|---|---|---|
| mmo-web/src/GameEngine.ts:93-94 | `s1 === s2` is the only guard on the division. Two distinct snapshots with the same arrival time, and a render time equal to that time, give `0 / 0 = NaN`, which `Math.max`/`Math.min` propagate. Positions of matched entities then become NaN for that frame. | buffer of two snapshots both stamped 1000, `now = 1100`: the scan picks pair (0, 1) and `t` is `0 / 0` | a factor in [0, 1] for every pair, as for `s1 === s2` (0 here) | not executed; the NaN follows from IEEE 754 division, and two snapshots stamped in the same millisecond are possible when messages arrive in a burst | `Engine.FactorAsWritten`, `Engine.EqualTimesGiveNaN` | `Engine.InterpolationFactor` |
