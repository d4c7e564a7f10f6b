/**
 * The whole process as one sequential state machine: the shared slot, the hub's registry and
 * mailbox, each session's mailbox, the texts each session has sent to its client, and each
 * session's lifecycle phase. Every actor handles one message at a time, so each event below
 * is one handler run to completion; the order of events is any interleaving.
 */
module System {
  import opened RustTypes
  import opened Configuration
  import opened Hub
  import opened Effects
  import opened Session
  import opened Poller

  datatype Phase = Active | Stopped

  datatype World = World(
    shared: Option<Config>,               // AppState.config
    sessions: set<Handle>,                // WsManager.sessions
    hubQueue: seq<HubMsg>,                // WsManager's mailbox, oldest first
    mailboxes: Mailboxes,                 // each ConfigWs's pending GenericWsMessage
    outbox: map<Handle, seq<string>>,     // texts each session has sent to its client
    phase: map<Handle, Phase>,            // sessions started so far, and whether still running
    posting: seq<Effect>)                 // what the poller's current cycle still has to do after releasing the lock

  /** Which broadcast handler the sessions run: the source's, or the corrected relay-only one. */
  datatype Relay = AsWritten | RelayOnly

  datatype Event =
    | Start(h: Handle)                                   // a new connection's actor starts
    | Terminate(h: Handle)                               // its transport ends; `stopping` runs
    | Inbound(h: Handle, msg: Result<Frame, ProtocolError>) // a frame from its client
    | Deliver(h: Handle)                                 // it handles its oldest GenericWsMessage
    | HubTurn                                            // the hub handles its oldest message
    | Poll(fetch: Fetch)                                 // a poller cycle fetches and installs, holding the lock
    | PollSend                                           // the cycle's `do_send`, after the lock is released

  /** The process at start-up: the slot is `None` and nothing is connected. */
  const Init: World := World(None, {}, [], map[], map[], map[], [])

  function Sent(w: World, h: Handle): seq<string> {
    if h in w.outbox then w.outbox[h] else []
  }

  predicate IsActive(w: World, h: Handle) {
    h in w.phase && w.phase[h] == Active
  }

  function Perform(w: World, e: Effect): World {
    match e
    case SendHub(m) => w.(hubQueue := w.hubQueue + [m])
    case SendText(h, t) => w.(outbox := w.outbox[h := Sent(w, h) + [t]])
    case WriteShared(c) => w.(shared := Some(c))
  }

  function ApplyEffects(w: World, effs: seq<Effect>): World
    decreases |effs|
  {
    if |effs| == 0 then w else ApplyEffects(Perform(w, effs[0]), effs[1..])
  }

  lemma ApplyOne(w: World, a: Effect)
    ensures ApplyEffects(w, [a]) == Perform(w, a)
  {
    assert [a][1..] == [];
  }

  lemma ApplyTwo(w: World, a: Effect, b: Effect)
    ensures ApplyEffects(w, [a, b]) == Perform(Perform(w, a), b)
  {
    assert [a, b][1..] == [b];
    ApplyOne(Perform(w, a), b);
  }

  function BroadcastHandler(relay: Relay, h: Handle, c: Config): seq<Effect> {
    match relay
    case AsWritten => OnBroadcast(h, c)
    case RelayOnly => OnBroadcastRelay(h, c)
  }

  /** One handler run. An event for an actor that cannot handle it (not running, nothing queued) changes nothing. */
  function Step(relay: Relay, w: World, e: Event): World {
    match e
    case Start(h) =>
      if h in w.phase then w  // addresses are never reused
      else ApplyEffects(w.(phase := w.phase[h := Active]), Started(h, w.shared))
    case Terminate(h) =>
      if !IsActive(w, h) then w
      else
        var r := Stopping(h);
        ApplyEffects(w.(phase := w.phase[h := if r.running.Stop? then Stopped else Active]), r.effects)
    case Inbound(h, msg) =>
      if !IsActive(w, h) then w else ApplyEffects(w, OnFrame(h, w.shared, msg))
    case Deliver(h) =>
      var pending := Inbox(w.mailboxes, h);
      if !IsActive(w, h) || |pending| == 0 then w
      else
        ApplyEffects(w.(mailboxes := w.mailboxes[h := pending[1..]]), BroadcastHandler(relay, h, pending[0]))
    case HubTurn =>
      if |w.hubQueue| == 0 then w
      else
        var st := HandleMsg(HubState(w.sessions, w.mailboxes), w.hubQueue[0]);
        w.(sessions := st.sessions, mailboxes := st.mailboxes, hubQueue := w.hubQueue[1..])
    case Poll(f) =>
      BeginCycle(FinishCycle(w), f)  // the poller is one task: the previous cycle has finished
    case PollSend =>
      FinishCycle(w)
  }

  /** The poller finishes its current cycle: whatever it still had to do after the lock, it does now. */
  function FinishCycle(w: World): World {
    if |w.posting| == 0 then w else ApplyEffects(w.(posting := []), w.posting)
  }

  /**
   * The poller starts a cycle with this fetch result. The slot write happens under the lock,
   * at once; the rest of the cycle (the broadcast) waits for `PollSend`, so any other handler
   * can run in between.
   */
  function BeginCycle(w: World, f: Fetch): World {
    var effs := FetchAndUpdateConfig(f).effects;
    if |effs| == 0 then w else Perform(w, effs[0]).(posting := effs[1..])
  }

  /** The world after the events of `trace`, in order. */
  function Run(relay: Relay, w: World, trace: seq<Event>): World
    decreases |trace|
  {
    if |trace| == 0 then w else Run(relay, Step(relay, w, trace[0]), trace[1..])
  }

  /** The poll loop with nothing interleaved: each cycle's fetch and write, then its send. */
  function Polls(fetches: seq<Fetch>): (trace: seq<Event>)
    ensures |trace| == 2 * |fetches|
    decreases |fetches|
  {
    if |fetches| == 0 then [] else [Poll(fetches[0]), PollSend] + Polls(fetches[1..])
  }

  // ---------------------------------------------------------------------------
  // Session transitions

  /**
   * A new session queues its Connect at the end of the hub's mailbox and sends exactly one
   * text, the current snapshot, to its own client; nothing else changes.
   */
  lemma StartRegistersThenSends(relay: Relay, w: World, h: Handle)
    requires h !in w.phase
    ensures var w' := Step(relay, w, Start(h));
      && w'.hubQueue == w.hubQueue + [Connect(h)]
      && Sent(w', h) == Sent(w, h) + [CurrentConfigText(w.shared)]
      && w'.phase == w.phase[h := Active]
      && w'.shared == w.shared && w'.sessions == w.sessions && w'.mailboxes == w.mailboxes
      && w'.posting == w.posting
      && (forall g :: g != h ==> Sent(w', g) == Sent(w, g))
  {
    var w0 := w.(phase := w.phase[h := Active]);
    assert Started(h, w.shared) == [SendHub(Connect(h)), SendText(h, CurrentConfigText(w.shared))];
    ApplyTwo(w0, SendHub(Connect(h)), SendText(h, CurrentConfigText(w.shared)));
  }

  /** On a fresh process the first client receives the "not available" marker. */
  lemma FirstClientGetsMarker(relay: Relay, h: Handle)
    ensures Init.shared == None
    ensures Sent(Run(relay, Init, [Start(h)]), h) == [NotAvailable]
  {
    assert [Start(h)][1..] == [];
    StartRegistersThenSends(relay, Init, h);
  }

  /** A stopping session queues its Disconnect and stops; nothing else changes. */
  lemma StopDeregisters(relay: Relay, w: World, h: Handle)
    requires IsActive(w, h)
    ensures var w' := Step(relay, w, Terminate(h));
      && w'.hubQueue == w.hubQueue + [Disconnect(h)]
      && w'.phase == w.phase[h := Stopped]
      && w'.shared == w.shared && w'.sessions == w.sessions && w'.mailboxes == w.mailboxes
      && w'.outbox == w.outbox && w'.posting == w.posting
  {
    ApplyOne(w.(phase := w.phase[h := Stopped]), SendHub(Disconnect(h)));
  }

  /** "get_config" from an active client appends one snapshot text to that client and changes nothing else. */
  lemma GetConfigResends(relay: Relay, w: World, h: Handle)
    requires IsActive(w, h)
    ensures Step(relay, w, Inbound(h, Ok(Text(GetConfigCommand))))
         == w.(outbox := w.outbox[h := Sent(w, h) + [CurrentConfigText(w.shared)]])
  {
    assert OnFrame(h, w.shared, Ok(Text(GetConfigCommand))) == [SendText(h, CurrentConfigText(w.shared))];
    ApplyOne(w, SendText(h, CurrentConfigText(w.shared)));
  }

  /** Any other inbound text, frame kind or protocol error leaves the whole world unchanged. */
  lemma UnrecognisedInputIgnored(relay: Relay, w: World, h: Handle, msg: Result<Frame, ProtocolError>)
    requires msg != Ok(Text(GetConfigCommand))
    ensures Step(relay, w, Inbound(h, msg)) == w
  {
  }

  /**
   * Delivering a broadcast to a session sends exactly the relayed configuration's JSON to
   * its client; the source's handler also overwrites the shared slot, the corrected one does not.
   */
  lemma DeliverRelays(relay: Relay, w: World, h: Handle)
    requires IsActive(w, h) && |Inbox(w.mailboxes, h)| > 0
    ensures var c := Inbox(w.mailboxes, h)[0];
      var w' := Step(relay, w, Deliver(h));
      && Sent(w', h) == Sent(w, h) + [Ser(c)]
      && Inbox(w'.mailboxes, h) == Inbox(w.mailboxes, h)[1..]
      && (forall g :: g != h ==> Sent(w', g) == Sent(w, g) && Inbox(w'.mailboxes, g) == Inbox(w.mailboxes, g))
      && w'.shared == (if relay == AsWritten then Some(c) else w.shared)
      && w'.hubQueue == w.hubQueue && w'.sessions == w.sessions && w'.phase == w.phase
      && w'.posting == w.posting
  {
    var c := Inbox(w.mailboxes, h)[0];
    var w0 := w.(mailboxes := w.mailboxes[h := Inbox(w.mailboxes, h)[1..]]);
    match relay
    case AsWritten =>
      ApplyTwo(w0, WriteShared(c), SendText(h, Ser(c)));
    case RelayOnly =>
      ApplyOne(w0, SendText(h, Ser(c)));
  }

  // ---------------------------------------------------------------------------
  // Hub transitions

  /**
   * When the hub handles a broadcast, every registered session's mailbox gets exactly one
   * copy at its end, no other mailbox changes, and the registry is unchanged.
   */
  lemma HubBroadcastFansOut(relay: Relay, w: World, c: Config)
    requires |w.hubQueue| > 0 && w.hubQueue[0] == Broadcast(c)
    ensures var w' := Step(relay, w, HubTurn);
      && w'.sessions == w.sessions
      && w'.hubQueue == w.hubQueue[1..]
      && (forall h :: Inbox(w'.mailboxes, h) == Inbox(w.mailboxes, h) + (if h in w.sessions then [c] else []))
      && w'.outbox == w.outbox && w'.shared == w.shared && w'.posting == w.posting
  {
  }

  /** The hub handles the oldest message of its queue; sessions' texts and the slot are untouched. */
  lemma HubTurnHandlesOldest(relay: Relay, w: World)
    requires |w.hubQueue| > 0
    ensures var w' := Step(relay, w, HubTurn);
      var x := w.hubQueue[0];
      && w'.sessions == Apply(w.sessions, x)
      && w'.hubQueue == w.hubQueue[1..]
      && (forall h :: Inbox(w'.mailboxes, h) == Inbox(w.mailboxes, h) + (if x.Broadcast? && h in w.sessions then [x.config] else []))
      && w'.outbox == w.outbox && w'.shared == w.shared && w'.phase == w.phase
      && w'.posting == w.posting
  {
  }

  // ---------------------------------------------------------------------------
  // Poller transitions

  /** A failed fetch returns before the write: it only lets the previous cycle finish, and on an idle poller changes nothing. */
  lemma FailedFetchChangesNothing(relay: Relay, w: World, e: FetchError)
    ensures Step(relay, w, Poll(FetchFailed(e))) == Step(relay, w, PollSend)
    ensures w.posting == [] ==> Step(relay, w, Poll(FetchFailed(e))) == w
  {
  }

  /**
   * A successful fetch installs the configuration while holding the lock and leaves its
   * broadcast, carrying the same value, as the one thing the cycle still has to do.
   */
  lemma FetchInstalls(relay: Relay, w: World, c: Config)
    requires w.posting == []
    ensures Step(relay, w, Poll(Fetched(c))) == w.(shared := Some(c), posting := [SendHub(Broadcast(c))])
  {
  }

  /** The cycle's send queues its broadcast behind everything already queued for the hub, and the poller is idle again. */
  lemma PollSendBroadcasts(relay: Relay, w: World, c: Config)
    requires w.posting == [SendHub(Broadcast(c))]
    ensures Step(relay, w, PollSend) == w.(hubQueue := w.hubQueue + [Broadcast(c)], posting := [])
  {
    ApplyOne(w.(posting := []), SendHub(Broadcast(c)));
  }

  /** With no cycle under way the send step does nothing. */
  lemma PollSendIdle(relay: Relay, w: World)
    requires w.posting == []
    ensures Step(relay, w, PollSend) == w
  {
  }

  /**
   * A whole successful cycle: the configuration is installed before its broadcast is queued
   * (after the first step the slot holds it and the hub's queue is unchanged), and once the
   * cycle finishes the broadcast of that same value is queued.
   */
  lemma FetchInstallsThenBroadcasts(relay: Relay, w: World, c: Config)
    requires w.posting == []
    ensures var w1 := Step(relay, w, Poll(Fetched(c)));
      w1.shared == Some(c) && w1.hubQueue == w.hubQueue
    ensures Run(relay, w, [Poll(Fetched(c)), PollSend]) == w.(shared := Some(c), hubQueue := w.hubQueue + [Broadcast(c)])
  {
    var w1 := Step(relay, w, Poll(Fetched(c)));
    FetchInstalls(relay, w, c);
    PollSendBroadcasts(relay, w1, c);
    assert [Poll(Fetched(c)), PollSend][1..] == [PollSend];
    assert [PollSend][1..] == [];
  }

  /**
   * The poll loop: after any run of cycles, the slot holds the last fetched configuration
   * (or its prior value if every fetch failed), one broadcast per success has been queued
   * in fetch order, and nothing else has changed. The loop starts between cycles.
   */
  lemma {:induction false} PollLoop(relay: Relay, w: World, fetches: seq<Fetch>)
    requires w.posting == []
    ensures var w' := Run(relay, w, Polls(fetches));
      && w'.shared == LastFetched(w.shared, fetches)
      && w'.hubQueue == w.hubQueue + Broadcasts(fetches)
      && w' == w.(shared := w'.shared, hubQueue := w'.hubQueue)
    decreases |fetches|
  {
    if |fetches| > 0 {
      var t := Polls(fetches);
      assert t[0] == Poll(fetches[0]) && t[1..][0] == PollSend && t[1..][1..] == Polls(fetches[1..]);
      var w1 := Step(relay, w, Poll(fetches[0]));
      var w2 := Step(relay, w1, PollSend);
      if fetches[0].FetchFailed? {
        FailedFetchChangesNothing(relay, w, fetches[0].error);
        PollSendIdle(relay, w1);
      } else {
        FetchInstalls(relay, w, fetches[0].config);
        PollSendBroadcasts(relay, w1, fetches[0].config);
      }
      assert Run(relay, w, t) == Run(relay, w2, Polls(fetches[1..]));
      PollLoop(relay, w2, fetches[1..]);
      var b := if fetches[0].Fetched? then [Broadcast(fetches[0].config)] else [];
      assert w2.hubQueue == w.hubQueue + b;
      AppendAssoc(w.hubQueue, b, Broadcasts(fetches[1..]));
    }
  }
}
