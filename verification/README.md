# subscriber_microservice — a Dafny model of the configuration broadcast core

The service polls an upstream endpoint for a `Config` record and keeps the latest one in a
shared slot (`AppState.config`, initially `None`). Each successful fetch is also sent to a hub
actor (`WsManager`), which forwards it to every registered websocket session (`ConfigWs`).
Each session sends JSON texts to its browser client: the current snapshot when it starts, the
snapshot again on request (`"get_config"`), and every configuration the hub relays. The page
at `/` draws fifty balls, coloured green when the installed configuration's feature flag is
on and blue otherwise. Its script recolours the balls whenever a text arrives.

The model is one sequential state machine, because every actor runs one handler at a time:

- `Configuration`: the four fields of `Config`. `Ser` is serde_json's compact output and
  `Parse` decodes it. The module proves the round trip, that `Ser` is injective, and that the
  "not available" marker is no configuration's JSON.
- `Hub`: the registry and the three hub handlers. The fan-out appears twice: as a map
  comprehension and as the source's loop over the registry. The module also proves facts
  about handling a whole queue in order.
- `Effects`: what a handler does, in order. It can queue a hub message, send a text, or
  write the slot.
- `Session`: `started`, `stopping`, `send_current_config`, the inbound-frame handler, and the
  broadcast handler. The broadcast handler appears as the source writes it and in a
  corrected form (see Findings).
- `Poller`: `fetch_and_update_config` and reference definitions for a run of poll cycles.
- `System`: the world of the slot, the registry, the FIFO mailboxes of the hub and of each
  session, the texts sent to each client, each session's phase, and what the poller's
  current cycle has left to do. Every handler run is an `Event`, and any interleaving is a
  sequence of events. A poll cycle is two events, because the poller releases the slot's lock
  before it sends the broadcast. `Poll` fetches and writes the slot under the lock. `PollSend`
  is the later `do_send`. Any handler can run between the two. A `Poll` first finishes a cycle
  that is still pending, because the poller is one task.
- `Consistency`: with the corrected broadcast handler, every running session's client ends
  up holding the JSON of the last fetched configuration. With the source's handler there is a
  run in which it does not.
- `Display`: the ball colour, the fifty ball positions, and the colour the page's script
  derives from a received text.

`ConfigUpdateMsg`, which `main.rs` sends, is modelled as the hub's `GenericWsMessage`. It is
the only broadcast message the hub handles.

## Model

| member | source | states |
|---|---|---|
| Configuration.ParseSer | src/main.rs:16-22 | Decoding the JSON of any configuration gives that configuration back. |
| Configuration.SerInjective | src/main.rs:16-22 | Two configurations have the same JSON exactly when they are equal. |
| Configuration.NotAvailableIsNoConfig | src/websocket.rs:118-126 | The "not available" marker decodes to no configuration and differs from the JSON of every configuration. |
| Configuration.UnescapeEscape | src/websocket.rs:120 | Unescaping the escaped logging level, followed by its closing quote, gives the level back together with the rest of the text. |
| Configuration.DecimalTextDigits | src/main.rs:21 | The decimal text of the rate limit is a non-empty run of digits whose value is the limit. |
| Configuration.ParseNatText | src/main.rs:21 | Reading the decimal text of a number, followed by a non-digit, gives the number and the rest of the text. |
| Hub.Register | src/websocket.rs:63-66 | After a Connect the address is registered, every other address keeps its membership, and the registry grows by one exactly when the address was absent. |
| Hub.Deregister | src/websocket.rs:72-75 | After a Disconnect the address is unregistered, every other address keeps its membership, and the registry shrinks by one exactly when the address was present. |
| Hub.MembershipIdempotent | src/websocket.rs:63-75 | Connecting twice is the same as connecting once, connecting a registered address is a no-op, and the same holds for disconnecting. |
| Hub.FanOut | src/websocket.rs:81-86 | A broadcast appends one copy of the configuration to the mailbox of every registered address and of no other address. |
| Hub.BroadcastLoop | src/websocket.rs:81-86 | The source's loop over the registry, one send per address, leaves every mailbox exactly as `FanOut` specifies. |
| Hub.HandleMsg | src/websocket.rs:60-87 | Connect and Disconnect change only the registry. A broadcast changes only mailboxes, appending the configuration for registered addresses and nothing otherwise. |
| Hub.HandleAllRegistry | src/websocket.rs:60-87 | After handling a queue in order, the registry is the one the `Registry` reference function computes. |
| Hub.HandleAllDelivers | src/websocket.rs:60-87 | After handling a queue in order, each address's mailbox holds what it held before, followed by exactly the configurations the `Owed` reference function computes. |
| Hub.NoDeliveryWithoutConnect | src/websocket.rs:63-66 | An unregistered address whose Connect is not in the queue receives nothing from it and is still unregistered afterwards. |
| Hub.NoDeliveryAfterDisconnect | src/websocket.rs:72-75 | After a Disconnect, no later broadcast reaches the address unless it connects again. |
| Hub.RegistrySnoc | src/websocket.rs:60-76 | Appending a message to the queue changes the final registry by that message alone. |
| Hub.OwedSnoc | src/websocket.rs:81-86 | Appending a broadcast to the queue adds one delivery at the end for exactly the addresses registered when it is handled. |
| Session.CurrentConfigText | src/websocket.rs:116-127 | The snapshot text is the configuration's JSON when one is installed. It is the marker exactly when none is. |
| Session.SnapshotDecodes | src/websocket.rs:116-127 | A client can decode the slot's content from the snapshot text, with the marker decoding to no configuration. |
| Session.SendCurrentConfig | src/websocket.rs:116-127 | `send_current_config` sends exactly one text, the snapshot, to its own client. |
| Session.Started | src/websocket.rs:97-103 | `started` queues Connect(self) first and then sends exactly one text, the snapshot, to its own client. It does not write the slot. |
| Session.Stopping | src/websocket.rs:105-109 | `stopping` queues exactly Disconnect(self) and returns `Stop`. |
| Session.OnFrame | src/websocket.rs:132-155 | An inbound frame has an effect exactly when it is the text "get_config", and then it re-sends the snapshot. Other texts, other frame kinds and protocol errors do nothing. |
| Session.OnBroadcast | src/websocket.rs:164-172 | The source's broadcast handler overwrites the slot first and then sends exactly the configuration's JSON to its own client. |
| Session.OnBroadcastRelay | src/websocket.rs:170-171 | The corrected handler sends exactly the configuration's JSON to its own client and writes nothing. |
| Poller.FetchAndUpdateConfig | src/main.rs:24-40 | A failed fetch returns its error with no effect. A successful fetch writes the slot, then queues a broadcast of the same value, and returns that value. |
| System.StartRegistersThenSends | src/websocket.rs:97-103 | In the world, a starting session appends its Connect behind everything already queued for the hub and appends the snapshot to its client's texts. Nothing else changes. |
| System.FirstClientGetsMarker | src/main.rs:122-124 | The slot starts empty, so a session started first sends its client the marker. |
| System.StopDeregisters | src/websocket.rs:105-109 | A stopping session queues its Disconnect and stops. Nothing else changes. |
| System.GetConfigResends | src/websocket.rs:139-141 | "get_config" from a running client appends one snapshot to that client's texts. Nothing else in the world changes. |
| System.UnrecognisedInputIgnored | src/websocket.rs:142-153 | Any other inbound text, frame kind or protocol error leaves the whole world unchanged. |
| System.DeliverRelays | src/websocket.rs:164-172 | Handling a relayed configuration sends exactly its JSON and pops that configuration from the session's mailbox. The source's handler also overwrites the slot; the corrected one does not. |
| System.HubBroadcastFansOut | src/websocket.rs:81-86 | When the hub handles a broadcast, every registered session's mailbox gains one copy of it, and the registry, the texts and the slot are untouched. |
| System.HubTurnHandlesOldest | src/websocket.rs:60-87 | The hub handles the oldest message in its queue. Sessions' texts and the slot are untouched. |
| System.FailedFetchChangesNothing | src/main.rs:27-28 | A failed fetch only finishes the previous cycle. It writes nothing and queues no broadcast of its own, so between cycles it leaves the whole world unchanged. |
| System.FetchInstalls | src/main.rs:31-34 | Between cycles, a successful fetch installs the configuration in the slot under the lock and leaves its broadcast still to be sent. Nothing else changes, and the hub's queue is untouched. |
| System.PollSendBroadcasts | src/main.rs:36-37 | After the lock is released, the cycle queues the broadcast of its configuration behind everything already queued for the hub, and the cycle is complete. Nothing else changes. |
| System.FetchInstallsThenBroadcasts | src/main.rs:31-37 | A cycle with nothing interleaved installs the configuration in the slot and then queues its broadcast behind everything already queued for the hub. |
| System.PollLoop | src/main.rs:131-138 | After any run of poll cycles, the slot holds the last fetched configuration, or its prior value if every fetch failed. One broadcast per success has been queued, in fetch order, and nothing else has changed. |
| Consistency.WiringRun | src/websocket.rs:97-109 | In every run, with either handler, each running session is registered once the hub has handled its queue, and each has sent its client at least one text. Unstarted addresses are unknown to the hub and have nothing queued or sent. The poller has at most its broadcast left to send. |
| Consistency.FirstTextIsSnapshot | src/websocket.rs:97-103 | With either handler, a session starting at any reachable point queues its Connect behind everything already queued. The first and only text its client then has is the snapshot of the slot at that moment. |
| Consistency.ConsistentRun | src/websocket.rs:164-172 | With the corrected handler, every run keeps each running client converging on the snapshot. At the end of the run the slot holds the last configuration fetched during it. |
| Consistency.ClientsConverge | src/main.rs:131-138 | With the corrected handler, take a running session with nothing in flight: the poller's cycle is complete, and the hub's queue and the session's mailbox are empty. It has last sent its client the JSON of the last fetched configuration, or the marker if nothing was ever fetched. |
| Consistency.WindowStartGetsBoth | src/main.rs:31-37 | With the corrected handler, a session that starts between a cycle's write and its send reads the new configuration as its snapshot. The broadcast is then queued behind its Connect, so the same configuration is also on its way to it. Its client receives the same text twice. |
| Consistency.ClientsShowFetchedColor | src/main.rs:84-89 | With the corrected handler, such a client's balls have the colour the page would be drawn with after the last fetch. |
| Consistency.StaleClientAsWritten | src/websocket.rs:164-172 | With the source's handler, for any two distinct configurations there is a run after which a running session has nothing in flight, the poller is idle, and both the slot and the last fetch hold the newer configuration, yet its client holds only the older one. |
| Display.BallColor | src/main.rs:45-48 | The balls are green exactly when a configuration is installed and its feature flag is on, and blue otherwise. |
| Display.DisplayBalls | src/main.rs:51-61 | Exactly fifty balls are drawn, all of the slot's colour. Ball i takes its left and top from the 2i-th and (2i+1)-th random bytes modulo 100, so both are below 100. |
| Display.SnapshotColorAgrees | src/main.rs:84-89 | The page script colours the balls from a snapshot text exactly as the server would draw them for the same slot. |
| Display.RelayColorAgrees | src/main.rs:84-89 | A relayed configuration's JSON turns the balls green exactly when its feature flag is on. |

## Left out

- The Actix runtime and the Tokio task are reduced to one mailbox per actor and one handler run per event. The poller's cycle is two events, split where it releases the lock. Any interleaving of events is allowed, and scheduling fairness is not modelled.
- The `Arc<Mutex<..>>` around the slot is left out, because every holder of the lock keeps it only within one event. Lock poisoning and the `unwrap` panic on it are also left out.
- The HTTP request and its JSON decoding are reduced to an input: a configuration, or a failure at send or at decode. The URL and the `reqwest` client are not modelled.
- Serialisation panics (`expect`/`unwrap` on `serde_json::to_string`) are left out, because serialising this record cannot fail.
- `Parse` decodes only the compact form `Ser` produces. It does not accept arbitrary JSON with other whitespace, key orders or escapes.
- Display.PageColor: it models the script's `JSON.parse` and `feature_flag` test only on texts the server sends. Those are the configuration JSON and the marker.
- Display.DisplayBalls: the HTML and CSS text of the page, and the script's `moveBalls` animation, are left out. `rand` is an arbitrary function to bytes.
- The poll loop's five-second `sleep`, all logging, the `HttpServer` binding and routing, and the `ws::start` failure that answers 500 are left out (src/websocket.rs:182-186 and src/main.rs:141-151). They are I/O or transport plumbing.
- Session addresses are natural numbers, and a new connection never reuses one. A Start for a used address is a no-op.
- The `GenericWsMessage` text form (`as_text`, src/websocket.rs:22-26) is never called, so it is not modelled.
- src/appstate.rs only declares the slot's type. It is the `shared` field of the world.

## Findings

| source | as written | input that shows it | evidently intended | confidence | as-written member | corrected member |
|---|---|---|---|---|---|---|
| src/websocket.rs:164-172 | Each session writes the relayed configuration back into the shared slot. A session that handles an older broadcast after the poller installed a newer one puts the older one back. A session that starts in that window therefore reads the older snapshot. Its Connect is queued behind the newer broadcast, which skips it. | Session 1 starts and the hub registers it. The poller fetches A, and the hub fans A out to session 1. The poller fetches B. Session 1 handles A, writing A back to the slot. Session 2 starts, sends A, and queues its Connect behind the broadcast of B. The hub handles both, and session 1 handles B. Session 2 has nothing in flight, and the slot holds B, but its client holds only A. | Only the poller writes the slot, and a session just relays. Then every settled client holds the last fetched configuration. | not executed; medium: the window needs a new connection between two fetches while a session's mailbox lags | Consistency.StaleClientAsWritten | Consistency.ClientsConverge |
