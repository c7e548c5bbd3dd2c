# Overlay session relay

A model of the server side of app-overlay-extra. This is a live-production setup. One overlay
display renders a broadcast scene, built from media streams published by any number of admin
control clients. The server does two jobs:

- it registers clients by role;
- it relays their JSON envelopes between the one overlay and the admins. These are WebRTC
  offers, answers and ICE candidates, plus scene changes and published sources.

The server keeps the current scene and a catalog of each admin's published sources. It replays
both to an overlay that (re)connects.

The model covers three source files:

- **`WebSocketManager`** (src/server/WebSocketManager.ts).
  - Module `Relay` gives its behaviour as pure steps over a `State`: the admins with their
    sources, the overlay slot and the scene. Every step yields the new state and the sends and
    closes it performs, in order.
  - Module `RelayProperties` proves what the relay promises about those steps.
  - Module `Manager` is the class itself. Its fields are updated in place, and its loops send
    one envelope at a time to an `outbox` log. Each method is proved to produce exactly the
    state and the effects of the matching `Relay` step.
- **The server of src/server/index.ts** (module `Server`).
  - The `fetch` handler: the `/ws` branch; the `./dist`, `./public`, `./data` fallback; and
    the extension to Content-Type switch.
  - Class `RelayServer`, which passes every WebSocket `message` and `close` event to its one
    manager.
- **The older server in index.ts** (module `Legacy`).
  - It keeps two module-level lists, `admins` and `overlays`. It registers a connection with
    the plain strings "admin" and "overlay". It relays every other message from one list to
    the open members of the other.
  - Its `fetch` handler serves files from `./src`.

Module `Http` holds what both `fetch` handlers share: the text after the last dot of a path,
and the response shape.

How the surroundings are represented:

- A connection is a number.
- Whether a connection is open (`readyState === OPEN`) is the set `open`, passed to each call.
- What parsing a received frame gives is the parameter `parsed`. It is `None` when the handler
  throws before it routes anything: either `JSON.parse` throws, or it returns `null` and reading
  `message.type` then throws a TypeError.
- Whether a file exists is the predicate `isFile`.
- Every `send` and `close` is appended to `outbox`. A forwarded frame is the very value that
  was received (`Forwarded(data)`).

The intended protocol and the code differ in places. The model follows the code:

- **Malformed JSON.** The protocol intends a malformed envelope to be logged and dropped. In the
  code, `JSON.parse` throws and nothing catches it, so the handler ends with an error. The model
  returns `ParseError` (and `threw`), with nothing changed.
- **Unknown `type`.** The code never checks the `type` field, so an envelope with an unknown
  `type` from an admin is forwarded to the overlay. It is the `Untyped` message.
- **Scenes.** The protocol intends a `transition` scene as well. The `scenes` constant in
  src/types.ts has five scenes, and the model has those five.
- **Order of the overlay's first messages.** The protocol intends a newly registering overlay
  to receive `setScene` as its first message. The code first replays the catalog, then sends
  `setScene` (`SceneReachesLaterClients`, `OverlayReplay`).
- **`connectClient` with another role.** The protocol intends no `connectClient` to be passed
  on. In the code, a `clientType` other than "admin" and "overlay" makes `register` return false,
  and the envelope falls through to forwarding (`UnrecognizedClientFallsThrough`).
- **Re-registration.** The code does not reject a connection that registers again, or
  registers in both roles. The model allows both, and `AdminIndex` finds the first match.
- **`/ws` requests.** Both servers return 426 "Upgrade Required" on `/ws` even when the upgrade
  succeeds (the `return` in that branch is commented out). The model does the same.

## Model

| member | source | states |
|---|---|---|
| Types.SceneNamed | src/types.ts:53-60 | a scene name, when recognised, names that scene |
| Types.SceneNameRoundTrip | src/types.ts:53-60 | each of the five scenes is recognised by its own wire name |
| Transport.IndexOf | index.ts:57 | `indexOf`: the first position holding the connection, and -1 exactly when it is absent |
| Transport.SendAllAt | src/server/WebSocketManager.ts:41-43 | a broadcast sends the payload once to each target, in target order, with no check of `readyState` |
| Transport.SendToOpenReaches | src/server/WebSocketManager.ts:59-63 | forwarding reaches every open target, once per listing, and nothing that is closed or unlisted |
| Transport.SendAll | src/server/WebSocketManager.ts:41-43 | a broadcast has exactly one send per target |
| Transport.SendToOpen | src/server/WebSocketManager.ts:59-63 | forwarding makes no more sends than there are targets |
| Relay.Catalog | src/server/WebSocketManager.ts:35-36 | the `flatMap`: a source is in the catalog exactly when some admin published it |
| Relay.RegisterAdmin | src/server/WebSocketManager.ts:21-24 | the new admin is added last with no sources; earlier admins keep their places; overlay and scene are kept; the one send is the current scene, to the new admin |
| Relay.RegisterOverlay | src/server/WebSocketManager.ts:26-44 | the slot is always taken afterwards; if it was taken, nothing changes and the newcomer is closed with 1000; if it was free, the newcomer takes it and admins and scene are kept |
| Relay.Register | src/server/WebSocketManager.ts:9-19 | no step exactly when the role is neither "admin" nor "overlay"; registering never changes the scene |
| Relay.ApplyAdminMessage | src/server/WebSocketManager.ts:66-80 | only `setScene` changes the scene; the overlay, the number of admins and every admin's connection are kept; no admin but the sender changes |
| Relay.Forward | src/server/WebSocketManager.ts:55-88 | routing keeps the overlay, the admins' number and connections, and changes the scene only to a `setScene`'s scene |
| Relay.OnMessage | src/server/WebSocketManager.ts:46-89 | a parse error exactly when parsing throws; a handled message changes the scene only to a `setScene`'s scene |
| Relay.OnClose | src/server/WebSocketManager.ts:91-102 | the scene is kept; the overlay is kept or freed; at most one admin goes; every admin on another connection stays |
| Relay.AdminIndex | src/server/WebSocketManager.ts:104-106 | `findIndex`: the first admin on the connection, and -1 exactly when no admin uses it |
| Relay.SendSourcesAt | src/server/WebSocketManager.ts:35-39 | the replay sends one `newSource` per source, in order, to the new overlay |
| RelayProperties.CatalogConcat | src/server/WebSocketManager.ts:35-36 | the `flatMap` over two admin lists is the two catalogs, one after the other |
| RelayProperties.CatalogSplit | src/server/WebSocketManager.ts:35-36 | admin k's sources sit, in publication order, between those of earlier and later admins |
| RelayProperties.RegisterAdminJoinsLast | src/server/WebSocketManager.ts:21-24 | a new admin joins last with no sources, the catalog stays the same, and it is sent exactly the current scene |
| RelayProperties.SecondOverlayRejected | src/server/WebSocketManager.ts:27-33 | while an overlay is connected, a second one is closed with 1000 and the reason text, and nothing else happens |
| RelayProperties.OverlayReplay | src/server/WebSocketManager.ts:34-43 | a new overlay is sent the whole catalog in order, then the scene; then every admin is sent `newOverlay` |
| RelayProperties.ReplayExample | src/server/WebSocketManager.ts:34-43 | sources [X, Y] of admin A and [Z] of admin B reach a new overlay as X, Y, Z, then the scene |
| RelayProperties.ConnectClientNotForwarded | src/server/WebSocketManager.ts:52-54 | a `connectClient` naming a role is consumed: nothing received is forwarded |
| RelayProperties.UnrecognizedClientFallsThrough | src/server/WebSocketManager.ts:9-19 | a `connectClient` naming any other role is routed like any other message |
| RelayProperties.OverlayMessageToOpenAdmins | src/server/WebSocketManager.ts:57-64 | the overlay's message changes nothing, and goes unchanged to every open admin and to no one else |
| RelayProperties.AdminMessage | src/server/WebSocketManager.ts:65-85 | an admin's message updates the scene or its own sources, then goes unchanged to the overlay only if it is open |
| RelayProperties.AdminUpdate | src/server/WebSocketManager.ts:66-80 | `setScene` sets the scene; `newSource` appends to that admin's sources only; nothing else changes |
| RelayProperties.CatalogReplace | src/server/WebSocketManager.ts:35-36 | replacing admin k changes only admin k's stretch of the catalog |
| RelayProperties.PublishedSourceJoinsCatalog | src/server/WebSocketManager.ts:72-79 | a published source enters the catalog right after that admin's earlier sources |
| RelayProperties.UnregisteredSenderIgnored | src/server/WebSocketManager.ts:86-88 | a message from an unregistered connection is dropped and changes nothing |
| RelayProperties.SceneReachesLaterClients | src/server/WebSocketManager.ts:68-70 | after `setScene` S, a new admin is sent S first, and a new overlay is sent S right after the catalog |
| RelayProperties.CloseOverlay | src/server/WebSocketManager.ts:92-95 | closing the overlay frees the slot and leaves the admins alone |
| RelayProperties.CloseAdmin | src/server/WebSocketManager.ts:96-101 | closing an admin removes the first admin on it, and exactly its sources leave the catalog |
| RelayProperties.CloseUnknown | src/server/WebSocketManager.ts:97-100 | closing an unknown connection changes nothing |
| RelayProperties.MessagesNeverRetract | src/server/WebSocketManager.ts:46-89 | no message removes an admin or shortens any admin's source list |
| RelayProperties.OverlayStaysUntilClosed | src/server/WebSocketManager.ts:26-33 | the overlay stays in its slot through any messages and other closes until its own close |
| Manager.WebSocketManager.constructor | src/server/WebSocketManager.ts:5-7 | a fresh manager has no admins, no overlay and scene `start`, and has sent nothing |
| Manager.WebSocketManager.Register | src/server/WebSocketManager.ts:9-19 | true, with the registration done, for the two roles; false, with nothing done, otherwise |
| Manager.WebSocketManager.RegisterAdmin | src/server/WebSocketManager.ts:21-24 | appends one admin with no sources and sends it the current scene, as the `RegisterAdmin` step says |
| Manager.WebSocketManager.RegisterOverlay | src/server/WebSocketManager.ts:26-44 | the new state and the sends, in order, are those of the `RegisterOverlay` step |
| Manager.WebSocketManager.SendSourcesTo | src/server/WebSocketManager.ts:35-39 | the loop sends one `newSource` per source, in order |
| Manager.WebSocketManager.SendToEach | src/server/WebSocketManager.ts:41-43 | the loop sends `newOverlay` to every admin, in order |
| Manager.WebSocketManager.SendToEachOpen | src/server/WebSocketManager.ts:59-63 | the loop sends the frame to each admin whose connection is open, in order |
| Manager.WebSocketManager.OnMessage | src/server/WebSocketManager.ts:46-89 | an error with nothing changed when parsing throws; otherwise exactly the `OnMessage` step |
| Manager.WebSocketManager.Forward | src/server/WebSocketManager.ts:55-88 | the overlay is checked before the admins, and the routing is exactly the `Forward` step |
| Manager.WebSocketManager.OnClose | src/server/WebSocketManager.ts:91-102 | the state after the close is the `OnClose` step's, and nothing is sent |
| Http.Extension | src/server/index.ts:27 | `split(".").pop()`: the longest dot-free end of the text, which follows the last dot |
| Http.ExtensionAfterLastDot | src/server/index.ts:27 | the extension of `prefix.ext` is `ext` when `ext` has no dot |
| Http.ExtensionWithoutDot | src/server/index.ts:27 | a path without a dot is its own extension |
| Server.FirstExisting | src/server/index.ts:18-24 | an existing candidate with no existing candidate before it, and None exactly when none exists |
| Server.Lookup | src/server/index.ts:18-24 | the `file` finally chosen is one of the dist, public and data paths |
| Server.LookupFindsFirst | src/server/index.ts:18-25 | the `file` reassignments serve the first of dist, public and data that has the file |
| Server.Fetch | src/server/index.ts:8-60 | `/ws` is never a file: an upgrade, then 426; otherwise 200 with the first existing file and the path's type when one exists, and 404 when none does |
| Server.MediaType | src/server/index.ts:28-52 | `application/octet-stream` exactly for an extension outside html, css, js, json, png, jpg, jpeg and svg |
| Server.ContentType | src/server/index.ts:27-52 | a path with no dot is typed as if the whole path were the extension |
| Server.ContentTypeByExtension | src/server/index.ts:27-52 | the type depends only on the text after the last dot |
| Server.JpegAliases | src/server/index.ts:45-48 | `jpg` and `jpeg` are both `image/jpeg` |
| Server.NoDotIsOctetStream | src/server/index.ts:28 | a URL path with no dot is `application/octet-stream` |
| Server.RelayServer.constructor | src/server/index.ts:4 | the server owns one fresh manager in its initial state |
| Server.RelayServer.Open | src/server/index.ts:62-64 | opening a connection changes nothing in the manager |
| Server.RelayServer.Message | src/server/index.ts:65-67 | a message event has exactly the manager's `onMessage` effect |
| Server.RelayServer.Close | src/server/index.ts:68-71 | a close event has exactly the manager's `onClose` effect |
| Legacy.AddOnce | index.ts:56-60 | the connection is in the list afterwards, which only grows, by at most one entry at the end |
| Legacy.RemoveFirst | index.ts:89-91 | the list loses one entry when it holds the connection and none otherwise, and gains nothing |
| Legacy.OnMessage | index.ts:42-85 | both lists only grow at the end; "admin" and "overlay" send nothing |
| Legacy.OnClose | index.ts:86-95 | neither list grows or gains an entry |
| Legacy.AddOnceKeepsUnique | index.ts:56-62 | registering is idempotent: present once afterwards, with no other entry changed |
| Legacy.RemoveFirstRemovesAll | index.ts:88-94 | in a list without duplicates, the splice removes the connection altogether and keeps every other entry |
| Legacy.MessageKeepsValid | index.ts:42-85 | the `message` handler keeps both lists free of duplicates |
| Legacy.CloseRemovesEverywhere | index.ts:86-95 | the `close` handler keeps both lists free of duplicates; the closed connection leaves both lists, and every other one keeps its memberships |
| Legacy.RegistrationNotRelayed | index.ts:46-62 | "admin" and "overlay" change only their own list and are not relayed |
| Legacy.AdminMessageToOverlays | index.ts:64-72 | a listed admin's message goes unchanged to every open overlay and to nothing else, even when the sender is also an overlay |
| Legacy.OverlayMessageToAdmins | index.ts:73-81 | a message from an overlay that is not an admin goes unchanged to every open admin and to nothing else |
| Legacy.UnlistedSenderIgnored | index.ts:82-84 | a message from a connection in neither list is dropped |
| Legacy.Relay.constructor | index.ts:3-4 | both lists start empty |
| Legacy.Relay.Message | index.ts:42-85 | keeps the lists duplicate-free, and does exactly the `OnMessage` step |
| Legacy.Relay.Close | index.ts:86-95 | keeps the lists duplicate-free, removes the connection from both, and sends nothing |
| Legacy.Relay.SendToEachOpen | index.ts:66-70 | the `forEach` sends the frame to each open member, in order |
| Legacy.Fetch | index.ts:8-37 | `/ws` gives 426 after an upgrade attempt; otherwise 200 with the rewritten `./src` file and its type when it exists, else 404 |
| Legacy.FilePath | index.ts:18-19 | every file path starts with `./src`, followed by the URL path unless that is `/` |
| Legacy.ContentType | index.ts:23-33 | the only types ever set are `text/html`, `application/javascript` and `text/css` |
| Legacy.RootIsIndexPage | index.ts:18-19 | `/` serves `./src/index.html` as `text/html` |
| Legacy.ContentTypeByExtension | index.ts:22-33 | only `html`, `js` and `css` get a Content-Type, chosen by the text after the last dot |

## Left out

- Logging: every `console.log` and `console.warn` is dropped.
- Transport: the upgrade itself, the HTTP request and URL parsing, the port and `argv` are not
  modelled. `send` and `close` are entries in the `outbox` log.
- The body of a served file: it is named by its path, and its bytes are not read.
- File existence is read once per candidate through `isFile`, so a file appearing or vanishing
  between two `exists()` checks of one request is not modelled.
- `JSON.parse` and `JSON.stringify` are not modelled. The parsed message is a parameter, and a
  sent envelope is a datatype value.
- A `setScene` whose scene text is none of the five scenes would be stored as is by the code.
  The model's `Scene` type has only the five, so such a scene is not modelled. These are the texts
  for which `SceneNamed` gives `None`.
- A `newSource` whose `source` is missing or is not a stream source would be stored as is by the
  code, and replayed later to every overlay. The model's `NewSource` always carries a
  `StreamSource`, so such a value is not modelled.
- Manager.WebSocketManager.Forward: `admin.sources.push` changes the `AdminClient` object in
  place. The model replaces that admin's record in the `admins` sequence. This is the same state,
  but aliasing of `AdminClient` objects is not modelled.
- Legacy.Relay.Close: `[admins, overlays].forEach(...)` is unrolled into its two lists.
- Concurrency: every handler runs to completion on the event loop, so nothing interleaves.
- The browser clients (src/client/, src/admin.js, src/overlay.js, src/common.js) and
  vite.config.ts are not part of this model.
