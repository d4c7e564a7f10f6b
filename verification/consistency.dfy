/**
 * What a client ends up showing. With the corrected broadcast handler, every running
 * session whose client has nothing in flight has last been sent the current snapshot, and
 * the snapshot is the last configuration the poller fetched. With the handler as the source
 * writes it (it also overwrites the shared slot), a session that starts at the wrong moment
 * is left showing an older configuration; `StaleClientAsWritten` exhibits such a run.
 */
module Consistency {
  import opened RustTypes
  import opened Configuration
  import opened Hub
  import opened Effects
  import opened Session
  import opened Poller
  import opened System
  import Display

  /** The configurations on their way to `h`: its mailbox, then what the hub's queue will fan out to it. */
  function Pending(w: World, h: Handle): seq<Config> {
    Inbox(w.mailboxes, h) + Owed(w.sessions, w.hubQueue, h)
  }

  /** The configurations the poller's unfinished cycle is still to broadcast. */
  function Announced(effs: seq<Effect>): seq<Config> {
    if |effs| == 0 then []
    else (if effs[0].SendHub? && effs[0].msg.Broadcast? then [effs[0].msg.config] else []) + Announced(effs[1..])
  }

  /**
   * The last text `h`'s client holds once everything on its way to it has arrived, the
   * broadcast the poller has not yet sent included.
   */
  function Eventual(w: World, h: Handle): string {
    LastText(Pending(w, h) + Announced(w.posting), Sent(w, h))
  }

  /** The last text of `sent` once the JSON of each of `pending` has been sent after it. */
  function LastText(pending: seq<Config>, sent: seq<string>): string {
    if |pending| > 0 then Ser(pending[|pending| - 1]) else if |sent| > 0 then sent[|sent| - 1] else ""
  }

  /** An address no session has used yet: unknown to the hub, nothing queued for it, nothing sent. */
  ghost predicate Unused(w: World, h: Handle) {
    && h !in w.sessions
    && (forall i :: 0 <= i < |w.hubQueue| ==> w.hubQueue[i] != Connect(h))
    && Inbox(w.mailboxes, h) == []
    && Sent(w, h) == []
  }

  /**
   * The wiring every running session keeps: it is registered once the hub has handled its
   * queue (its Connect is handled or still queued, and no Disconnect follows it), and it
   * has sent its client at least one text.
   */
  ghost predicate Tracked(w: World, h: Handle) {
    h in Registry(w.sessions, w.hubQueue) && |Sent(w, h)| > 0
  }

  /** The poller is between cycles, or has only its broadcast left to send. */
  predicate PollerShape(posting: seq<Effect>) {
    posting == [] || (|posting| == 1 && posting[0].SendHub? && posting[0].msg.Broadcast?)
  }

  ghost predicate Wiring(w: World) {
    && (forall h :: h !in w.phase ==> Unused(w, h))
    && (forall h :: IsActive(w, h) ==> Tracked(w, h))
    && PollerShape(w.posting)
  }

  /**
   * Every running session's client will end up holding the current snapshot; a cycle that
   * has installed a configuration but not yet sent it is about to broadcast exactly that one.
   */
  ghost predicate Consistent(w: World) {
    && (forall h :: IsActive(w, h) ==> Eventual(w, h) == CurrentConfigText(w.shared))
    && (w.posting != [] ==> w.shared.Some? && w.posting == [SendHub(Broadcast(w.shared.value))])
  }

  // ---------------------------------------------------------------------------
  // The wiring holds in every reachable state, whichever broadcast handler runs

  lemma WiringStart(relay: Relay, w: World, g: Handle)
    requires Wiring(w) && g !in w.phase
    ensures Wiring(Step(relay, w, Start(g)))
  {
    var w' := Step(relay, w, Start(g));
    StartRegistersThenSends(relay, w, g);
    RegistrySnoc(w.sessions, w.hubQueue, Connect(g));
    forall h | h !in w'.phase
      ensures Unused(w', h)
    {
      assert Unused(w, h);
    }
    forall h | IsActive(w', h)
      ensures Tracked(w', h)
    {
      if h != g {
        assert Tracked(w, h);
      }
    }
  }

  lemma WiringTerminate(relay: Relay, w: World, g: Handle)
    requires Wiring(w) && IsActive(w, g)
    ensures Wiring(Step(relay, w, Terminate(g)))
  {
    var w' := Step(relay, w, Terminate(g));
    StopDeregisters(relay, w, g);
    RegistrySnoc(w.sessions, w.hubQueue, Disconnect(g));
    forall h | h !in w'.phase
      ensures Unused(w', h)
    {
      assert Unused(w, h);
    }
    forall h | IsActive(w', h)
      ensures Tracked(w', h)
    {
      assert Tracked(w, h);
    }
  }

  lemma WiringInbound(relay: Relay, w: World, g: Handle, msg: Result<Frame, ProtocolError>)
    requires Wiring(w) && IsActive(w, g)
    ensures Wiring(Step(relay, w, Inbound(g, msg)))
  {
    var w' := Step(relay, w, Inbound(g, msg));
    if msg == Ok(Text(GetConfigCommand)) {
      GetConfigResends(relay, w, g);
      forall h | h !in w'.phase
        ensures Unused(w', h)
      {
        assert Unused(w, h);
      }
      forall h | IsActive(w', h)
        ensures Tracked(w', h)
      {
        assert Tracked(w, h);
      }
    } else {
      UnrecognisedInputIgnored(relay, w, g, msg);
    }
  }

  lemma WiringDeliver(relay: Relay, w: World, g: Handle)
    requires Wiring(w) && IsActive(w, g) && |Inbox(w.mailboxes, g)| > 0
    ensures Wiring(Step(relay, w, Deliver(g)))
  {
    var w' := Step(relay, w, Deliver(g));
    DeliverRelays(relay, w, g);
    forall h | h !in w'.phase
      ensures Unused(w', h)
    {
      assert Unused(w, h);
    }
    forall h | IsActive(w', h)
      ensures Tracked(w', h)
    {
      assert Tracked(w, h);
    }
  }

  lemma WiringHubTurn(relay: Relay, w: World)
    requires Wiring(w) && |w.hubQueue| > 0
    ensures Wiring(Step(relay, w, HubTurn))
  {
    var w' := Step(relay, w, HubTurn);
    var x := w.hubQueue[0];
    HubTurnHandlesOldest(relay, w);
    assert Registry(w'.sessions, w'.hubQueue) == Registry(w.sessions, w.hubQueue);
    forall h | h !in w'.phase
      ensures Unused(w', h)
    {
      assert Unused(w, h);
      assert x != Connect(h);
      assert forall i :: 0 <= i < |w'.hubQueue| ==> w'.hubQueue[i] == w.hubQueue[i + 1];
    }
    forall h | IsActive(w', h)
      ensures Tracked(w', h)
    {
      assert Tracked(w, h);
    }
  }

  lemma WiringPollSend(relay: Relay, w: World)
    requires Wiring(w)
    ensures Wiring(Step(relay, w, PollSend))
  {
    var w' := Step(relay, w, PollSend);
    if w.posting == [] {
      PollSendIdle(relay, w);
    } else {
      var c := w.posting[0].msg.config;
      PollSendBroadcasts(relay, w, c);
      RegistrySnoc(w.sessions, w.hubQueue, Broadcast(c));
      forall h | h !in w'.phase
        ensures Unused(w', h)
      {
        assert Unused(w, h);
      }
      forall h | IsActive(w', h)
        ensures Tracked(w', h)
      {
        assert Tracked(w, h);
      }
    }
  }

  lemma WiringPoll(relay: Relay, w: World, f: Fetch)
    requires Wiring(w)
    ensures Wiring(Step(relay, w, Poll(f)))
  {
    var w1 := Step(relay, w, PollSend);
    WiringPollSend(relay, w);
    PollSendFlushes(relay, w);
    match f
    case FetchFailed(e) =>
      FailedFetchChangesNothing(relay, w, e);
    case Fetched(c) =>
      FetchInstalls(relay, w1, c);
      var w' := Step(relay, w1, Poll(f));
      assert Step(relay, w, Poll(f)) == w';
      forall h | h !in w'.phase
        ensures Unused(w', h)
      {
        assert Unused(w1, h);
      }
      forall h | IsActive(w', h)
        ensures Tracked(w', h)
      {
        assert Tracked(w1, h);
      }
  }

  /** Every step keeps the wiring. */
  lemma WiringStep(relay: Relay, w: World, e: Event)
    requires Wiring(w)
    ensures Wiring(Step(relay, w, e))
  {
    match e
    case Start(g) =>
      if g !in w.phase { WiringStart(relay, w, g); }
    case Terminate(g) =>
      if IsActive(w, g) { WiringTerminate(relay, w, g); }
    case Inbound(g, msg) =>
      if IsActive(w, g) { WiringInbound(relay, w, g, msg); }
    case Deliver(g) =>
      if IsActive(w, g) && |Inbox(w.mailboxes, g)| > 0 { WiringDeliver(relay, w, g); }
    case HubTurn =>
      if |w.hubQueue| > 0 { WiringHubTurn(relay, w); }
    case Poll(f) =>
      WiringPoll(relay, w, f);
    case PollSend =>
      WiringPollSend(relay, w);
  }

  // ---------------------------------------------------------------------------
  // With the corrected handler every running client converges on the snapshot

  /** A running session whose pending configurations, sent texts and snapshot did not change stays converging. */
  lemma StillConverges(w: World, w': World, h: Handle)
    requires Consistent(w) && IsActive(w, h)
    requires Pending(w', h) == Pending(w, h) && Sent(w', h) == Sent(w, h) && w'.shared == w.shared
    requires w'.posting == w.posting
    ensures Eventual(w', h) == CurrentConfigText(w'.shared)
  {
    assert Eventual(w, h) == CurrentConfigText(w.shared);
  }

  /** A running session that sends the current snapshot again still converges on it. */
  lemma ResendConverges(w: World, w': World, h: Handle)
    requires Consistent(w) && IsActive(w, h)
    requires Pending(w', h) == Pending(w, h) && w'.shared == w.shared && w'.posting == w.posting
    requires Sent(w', h) == Sent(w, h) + [CurrentConfigText(w.shared)]
    ensures Eventual(w', h) == CurrentConfigText(w'.shared)
  {
    assert Eventual(w, h) == CurrentConfigText(w.shared);
  }

  /** A running session that takes its oldest delivery and sends its JSON still converges. */
  lemma PopConverges(w: World, w': World, h: Handle)
    requires Consistent(w) && IsActive(w, h) && |Inbox(w.mailboxes, h)| > 0
    requires Inbox(w'.mailboxes, h) == Inbox(w.mailboxes, h)[1..]
    requires w'.sessions == w.sessions && w'.hubQueue == w.hubQueue && w'.shared == w.shared
    requires w'.posting == w.posting
    requires Sent(w', h) == Sent(w, h) + [Ser(Inbox(w.mailboxes, h)[0])]
    ensures Eventual(w', h) == CurrentConfigText(w'.shared)
  {
    var c := Inbox(w.mailboxes, h)[0];
    var owed := Owed(w.sessions, w.hubQueue, h);
    assert Inbox(w.mailboxes, h) == [c] + Inbox(w'.mailboxes, h);
    AppendAssoc([c], Inbox(w'.mailboxes, h), owed);
    assert Pending(w, h) == [c] + Pending(w', h);
    AppendAssoc([c], Pending(w', h), Announced(w.posting));
    LastTextPop(c, Pending(w', h) + Announced(w.posting), Sent(w, h));
    assert Eventual(w, h) == CurrentConfigText(w.shared);
  }

  /** Sending the first pending configuration's JSON does not change what the client ends up holding. */
  lemma LastTextPop(c: Config, rest: seq<Config>, sent: seq<string>)
    ensures LastText([c] + rest, sent) == LastText(rest, sent + [Ser(c)])
  {
    var p := [c] + rest;
    assert p[|p| - 1] == if |rest| > 0 then rest[|rest| - 1] else c;
  }

  /** A cycle's unsent broadcast is the slot's configuration, so it leaves the snapshot last. */
  lemma UnsentSnapshot(w: World)
    requires Consistent(w)
    ensures LastText(Announced(w.posting), [CurrentConfigText(w.shared)]) == CurrentConfigText(w.shared)
  {
    if w.posting != [] {
      var c := w.shared.value;
      assert w.posting[1..] == [];
      assert Announced(w.posting) == [c];
    }
  }

  lemma ConsistentStart(w: World, g: Handle)
    requires Wiring(w) && Consistent(w) && g !in w.phase
    ensures Consistent(Step(RelayOnly, w, Start(g)))
  {
    var w' := Step(RelayOnly, w, Start(g));
    StartRegistersThenSends(RelayOnly, w, g);
    assert Unused(w, g);
    forall h | IsActive(w', h)
      ensures Eventual(w', h) == CurrentConfigText(w'.shared)
    {
      if h == g {
        StartedConverges(w, g);
      } else {
        OwedSnoc(w.sessions, w.hubQueue, Connect(g), h);
        StillConverges(w, w', h);
      }
    }
  }

  /** A starting session has nothing on its way yet, so its snapshot is what its client ends up holding. */
  lemma StartedConverges(w: World, g: Handle)
    requires Wiring(w) && Consistent(w) && g !in w.phase
    ensures Eventual(Step(RelayOnly, w, Start(g)), g) == CurrentConfigText(w.shared)
  {
    var w' := Step(RelayOnly, w, Start(g));
    StartRegistersThenSends(RelayOnly, w, g);
    assert Unused(w, g);
    OwedSnoc(w.sessions, w.hubQueue, Connect(g), g);
    NoDeliveryWithoutConnect(w.sessions, w.hubQueue, g);
    assert Pending(w', g) == [];
    assert Sent(w', g) == [CurrentConfigText(w.shared)];
    UnsentSnapshot(w);
  }

  lemma ConsistentTerminate(w: World, g: Handle)
    requires Wiring(w) && Consistent(w) && IsActive(w, g)
    ensures Consistent(Step(RelayOnly, w, Terminate(g)))
  {
    var w' := Step(RelayOnly, w, Terminate(g));
    StopDeregisters(RelayOnly, w, g);
    forall h | IsActive(w', h)
      ensures Eventual(w', h) == CurrentConfigText(w'.shared)
    {
      OwedSnoc(w.sessions, w.hubQueue, Disconnect(g), h);
      StillConverges(w, w', h);
    }
  }

  lemma ConsistentInbound(w: World, g: Handle, msg: Result<Frame, ProtocolError>)
    requires Wiring(w) && Consistent(w) && IsActive(w, g)
    ensures Consistent(Step(RelayOnly, w, Inbound(g, msg)))
  {
    var w' := Step(RelayOnly, w, Inbound(g, msg));
    if msg == Ok(Text(GetConfigCommand)) {
      GetConfigResends(RelayOnly, w, g);
      forall h | IsActive(w', h)
        ensures Eventual(w', h) == CurrentConfigText(w'.shared)
      {
        if h != g {
          StillConverges(w, w', h);
        } else {
          assert Pending(w', g) == Pending(w, g);
          ResendConverges(w, w', g);
        }
      }
    } else {
      UnrecognisedInputIgnored(RelayOnly, w, g, msg);
    }
  }

  lemma ConsistentDeliver(w: World, g: Handle)
    requires Wiring(w) && Consistent(w) && IsActive(w, g) && |Inbox(w.mailboxes, g)| > 0
    ensures Consistent(Step(RelayOnly, w, Deliver(g)))
  {
    var w' := Step(RelayOnly, w, Deliver(g));
    DeliverRelays(RelayOnly, w, g);
    forall h | IsActive(w', h)
      ensures Eventual(w', h) == CurrentConfigText(w'.shared)
    {
      if h == g {
        PopConverges(w, w', g);
      } else {
        StillConverges(w, w', h);
      }
    }
  }

  /** The hub's handling of its oldest message moves deliveries from its queue into mailboxes, keeping each session's pending list. */
  lemma HubTurnKeepsPending(w: World, h: Handle)
    requires |w.hubQueue| > 0
    ensures Pending(Step(RelayOnly, w, HubTurn), h) == Pending(w, h)
  {
    var w' := Step(RelayOnly, w, HubTurn);
    var x := w.hubQueue[0];
    HubTurnHandlesOldest(RelayOnly, w);
    var head := if x.Broadcast? && h in w.sessions then [x.config] else [];
    var rest := Owed(Apply(w.sessions, x), w.hubQueue[1..], h);
    assert Pending(w', h) == (Inbox(w.mailboxes, h) + head) + rest;
    assert Owed(w.sessions, w.hubQueue, h) == head + rest;
    AppendAssoc(Inbox(w.mailboxes, h), head, rest);
  }

  lemma ConsistentHubTurn(w: World)
    requires Wiring(w) && Consistent(w) && |w.hubQueue| > 0
    ensures Consistent(Step(RelayOnly, w, HubTurn))
  {
    var w' := Step(RelayOnly, w, HubTurn);
    HubTurnHandlesOldest(RelayOnly, w);
    forall h | IsActive(w', h)
      ensures Eventual(w', h) == CurrentConfigText(w'.shared)
    {
      HubTurnKeepsPending(w, h);
      StillConverges(w, w', h);
    }
  }

  /** The cycle's send moves its broadcast from the poller to the end of the hub's queue; each session's outlook is unchanged. */
  lemma ConsistentPollSend(w: World)
    requires Wiring(w) && Consistent(w)
    ensures Consistent(Step(RelayOnly, w, PollSend))
  {
    if w.posting == [] {
      PollSendIdle(RelayOnly, w);
    } else {
      var c := w.shared.value;
      var w' := Step(RelayOnly, w, PollSend);
      PollSendBroadcasts(RelayOnly, w, c);
      forall h | IsActive(w', h)
        ensures Eventual(w', h) == CurrentConfigText(w'.shared)
      {
        assert Tracked(w, h);
        OwedSnoc(w.sessions, w.hubQueue, Broadcast(c), h);
        AppendAssoc(Inbox(w.mailboxes, h), Owed(w.sessions, w.hubQueue, h), [c]);
        assert Pending(w', h) == Pending(w, h) + [c];
        assert Announced(w'.posting) == [];
        assert Pending(w', h) + Announced(w'.posting) == Pending(w, h) + [c];
        assert LastText(Pending(w, h) + [c], Sent(w', h)) == Ser(c);
      }
    }
  }

  lemma ConsistentPoll(w: World, f: Fetch)
    requires Wiring(w) && Consistent(w)
    ensures Consistent(Step(RelayOnly, w, Poll(f)))
  {
    var w1 := Step(RelayOnly, w, PollSend);
    ConsistentPollSend(w);
    PollSendFlushes(RelayOnly, w);
    match f
    case FetchFailed(e) =>
      FailedFetchChangesNothing(RelayOnly, w, e);
    case Fetched(c) =>
      FetchInstalls(RelayOnly, w1, c);
      var w' := Step(RelayOnly, w1, Poll(f));
      assert Step(RelayOnly, w, Poll(f)) == w';
      assert Announced(w'.posting) == [c] by {
        assert w'.posting[1..] == [];
      }
      forall h | IsActive(w', h)
        ensures Eventual(w', h) == CurrentConfigText(w'.shared)
      {
        var p := Pending(w', h) + [c];
        assert p[|p| - 1] == c;
      }
  }

  /** With the corrected handler every step keeps the wiring and the convergence. */
  lemma ConsistentStep(w: World, e: Event)
    requires Wiring(w) && Consistent(w)
    ensures Consistent(Step(RelayOnly, w, e))
  {
    match e
    case Start(g) =>
      if g !in w.phase { ConsistentStart(w, g); } else { assert Step(RelayOnly, w, e) == w; }
    case Terminate(g) =>
      if IsActive(w, g) { ConsistentTerminate(w, g); } else { assert Step(RelayOnly, w, e) == w; }
    case Inbound(g, msg) =>
      if IsActive(w, g) { ConsistentInbound(w, g, msg); } else { assert Step(RelayOnly, w, e) == w; }
    case Deliver(g) =>
      if IsActive(w, g) && |Inbox(w.mailboxes, g)| > 0 { ConsistentDeliver(w, g); } else { assert Step(RelayOnly, w, e) == w; }
    case HubTurn =>
      if |w.hubQueue| > 0 { ConsistentHubTurn(w); } else { assert Step(RelayOnly, w, e) == w; }
    case Poll(f) =>
      ConsistentPoll(w, f);
    case PollSend =>
      ConsistentPollSend(w);
  }

  // ---------------------------------------------------------------------------
  // Reachable states

  /** The fetch results of the poll cycles in `t`, in order. */
  function FetchesIn(t: seq<Event>): seq<Fetch> {
    if |t| == 0 then []
    else (if t[0].Poll? then [t[0].fetch] else []) + FetchesIn(t[1..])
  }

  lemma InitWiring()
    ensures Wiring(Init) && Consistent(Init)
  {
    forall h | h !in Init.phase
      ensures Unused(Init, h)
    {
    }
  }

  /** With the corrected handler only a successful fetch writes the shared slot. */
  lemma SharedStep(w: World, e: Event)
    requires PollerShape(w.posting)
    ensures Step(RelayOnly, w, e).shared == if e.Poll? && e.fetch.Fetched? then Some(e.fetch.config) else w.shared
  {
    match e
    case Start(g) =>
      if g !in w.phase { StartRegistersThenSends(RelayOnly, w, g); }
    case Terminate(g) =>
      if IsActive(w, g) { StopDeregisters(RelayOnly, w, g); }
    case Inbound(g, msg) =>
      if IsActive(w, g) {
        if msg == Ok(Text(GetConfigCommand)) {
          GetConfigResends(RelayOnly, w, g);
        } else {
          UnrecognisedInputIgnored(RelayOnly, w, g, msg);
        }
      }
    case Deliver(g) =>
      if IsActive(w, g) && |Inbox(w.mailboxes, g)| > 0 { DeliverRelays(RelayOnly, w, g); }
    case HubTurn =>
      if |w.hubQueue| > 0 { HubTurnHandlesOldest(RelayOnly, w); }
    case Poll(f) =>
      PollSendFlushes(RelayOnly, w);
      match f {
        case FetchFailed(err) =>
          FailedFetchChangesNothing(RelayOnly, w, err);
        case Fetched(c) =>
          var w1 := Step(RelayOnly, w, PollSend);
          FetchInstalls(RelayOnly, w1, c);
          assert Step(RelayOnly, w, e) == Step(RelayOnly, w1, e);
      }
    case PollSend =>
      PollSendFlushes(RelayOnly, w);
  }

  /** Finishing a cycle only sends its broadcast: the slot was already written under the lock. */
  lemma PollSendFlushes(relay: Relay, w: World)
    requires PollerShape(w.posting)
    ensures Step(relay, w, PollSend).shared == w.shared
    ensures Step(relay, w, PollSend).posting == []
  {
    if w.posting == [] {
      PollSendIdle(relay, w);
    } else {
      assert w.posting == [SendHub(Broadcast(w.posting[0].msg.config))];
      PollSendBroadcasts(relay, w, w.posting[0].msg.config);
    }
  }

  /** Whichever broadcast handler runs, every run keeps the wiring. */
  lemma {:induction false} WiringRun(relay: Relay, w: World, t: seq<Event>)
    requires Wiring(w)
    ensures Wiring(Run(relay, w, t))
    decreases |t|
  {
    if |t| > 0 {
      WiringStep(relay, w, t[0]);
      WiringRun(relay, Step(relay, w, t[0]), t[1..]);
    }
  }

  /**
   * With the corrected handler every run keeps the convergence, and leaves the shared slot
   * holding the last configuration fetched during the run, or its prior value if none was.
   */
  lemma {:induction false} ConsistentRun(w: World, t: seq<Event>)
    requires Wiring(w) && Consistent(w)
    ensures Wiring(Run(RelayOnly, w, t)) && Consistent(Run(RelayOnly, w, t))
    ensures Run(RelayOnly, w, t).shared == LastFetched(w.shared, FetchesIn(t))
    decreases |t|
  {
    if |t| > 0 {
      var e := t[0];
      var w1 := Step(RelayOnly, w, e);
      WiringStep(RelayOnly, w, e);
      ConsistentStep(w, e);
      SharedStep(w, e);
      ConsistentRun(w1, t[1..]);
      if e.Poll? {
        var fs := [e.fetch] + FetchesIn(t[1..]);
        assert fs[1..] == FetchesIn(t[1..]);
      } else {
        assert FetchesIn(t) == FetchesIn(t[1..]);
      }
    }
  }

  /**
   * The corrected system's promise: once nothing is in flight to a running session (the
   * poller has sent its broadcast, and the hub's queue and the session's mailbox are empty), the last text its client received is the
   * JSON of the last configuration the poller fetched, or the marker if none was fetched.
   */
  lemma ClientsConverge(t: seq<Event>, h: Handle)
    requires IsActive(Run(RelayOnly, Init, t), h)
    requires Run(RelayOnly, Init, t).posting == []
    requires |Run(RelayOnly, Init, t).hubQueue| == 0 && Inbox(Run(RelayOnly, Init, t).mailboxes, h) == []
    ensures |Sent(Run(RelayOnly, Init, t), h)| > 0
    ensures var s := Sent(Run(RelayOnly, Init, t), h);
      s[|s| - 1] == CurrentConfigText(LastFetched(None, FetchesIn(t)))
  {
    var w := Run(RelayOnly, Init, t);
    InitWiring();
    ConsistentRun(Init, t);
    assert Tracked(w, h);
    assert Pending(w, h) == [];
  }

  /** So, with the corrected handler, a settled client colours its balls as the page would be drawn after the last fetch. */
  lemma ClientsShowFetchedColor(t: seq<Event>, h: Handle)
    requires IsActive(Run(RelayOnly, Init, t), h)
    requires Run(RelayOnly, Init, t).posting == []
    requires |Run(RelayOnly, Init, t).hubQueue| == 0 && Inbox(Run(RelayOnly, Init, t).mailboxes, h) == []
    ensures var s := Sent(Run(RelayOnly, Init, t), h);
      |s| > 0 && Display.PageColor(s[|s| - 1]) == Display.BallColor(LastFetched(None, FetchesIn(t)))
  {
    ClientsConverge(t, h);
    Display.SnapshotColorAgrees(LastFetched(None, FetchesIn(t)));
  }

  /**
   * Whichever handler runs, a session starting at any point of any run queues its Connect
   * behind everything already queued, and the first and only text its client has is the
   * snapshot of the slot at that moment.
   */
  lemma FirstTextIsSnapshot(relay: Relay, t: seq<Event>, h: Handle)
    requires h !in Run(relay, Init, t).phase
    ensures var w := Run(relay, Init, t);
      && Sent(Step(relay, w, Start(h)), h) == [CurrentConfigText(w.shared)]
      && Step(relay, w, Start(h)).hubQueue == w.hubQueue + [Connect(h)]
  {
    var w := Run(relay, Init, t);
    InitWiring();
    WiringRun(relay, Init, t);
    assert Unused(w, h);
    StartRegistersThenSends(relay, w, h);
  }

  /**
   * The window between a cycle's write and its send: a session that starts there reads the
   * new configuration as its snapshot, and, its Connect being queued ahead of the broadcast,
   * is also owed that broadcast. Its client receives the same text twice.
   */
  lemma WindowStartGetsBoth(t: seq<Event>, h: Handle)
    requires h !in Run(RelayOnly, Init, t).phase && Run(RelayOnly, Init, t).posting != []
    ensures var w := Run(RelayOnly, Init, t);
      var w2 := Step(RelayOnly, Step(RelayOnly, w, Start(h)), PollSend);
      && w.shared.Some?
      && Sent(w2, h) == [Ser(w.shared.value)]
      && Pending(w2, h) == [w.shared.value]
  {
    var w := Run(RelayOnly, Init, t);
    InitWiring();
    ConsistentRun(Init, t);
    assert Unused(w, h);
    var c := w.shared.value;
    var w1 := Step(RelayOnly, w, Start(h));
    StartRegistersThenSends(RelayOnly, w, h);
    PollSendBroadcasts(RelayOnly, w1, c);
    NoDeliveryWithoutConnect(w.sessions, w.hubQueue, h);
    OwedSnoc(w.sessions, w.hubQueue, Connect(h), h);
    RegistrySnoc(w.sessions, w.hubQueue, Connect(h));
    OwedSnoc(w.sessions, w1.hubQueue, Broadcast(c), h);
  }

  // ---------------------------------------------------------------------------
  // The handler as written: a client left on an older configuration

  /**
   * Session 1 connects; the poller fetches `older`, which reaches session 1's mailbox; the
   * poller fetches `newer` and queues its broadcast; session 1 handles `older`, writing it
   * back to the shared slot; session 2 starts, reads `older`, and queues its Connect behind
   * the broadcast of `newer`, which therefore skips it; session 1 handles `newer`.
   */
  function StaleTrace(older: Config, newer: Config): seq<Event> {
    [Start(1), HubTurn, Poll(Fetched(older)), PollSend, HubTurn, Poll(Fetched(newer)), PollSend,
     Deliver(1), Start(2), HubTurn, HubTurn, Deliver(1)]
  }

  /** The number of events in `StaleTrace`. */
  const StaleLength: nat := 12

  /** What the stale run tracks of a world: the slot, the hub, both mailboxes, the phases, session 2's texts and the poller. */
  datatype View = View(shared: Option<Config>, sessions: set<Handle>, queue: seq<HubMsg>,
                       inbox1: seq<Config>, inbox2: seq<Config>, phase: map<Handle, Phase>, sent2: seq<string>,
                       posting: seq<Effect>)

  function ViewOf(w: World): View {
    View(w.shared, w.sessions, w.hubQueue, Inbox(w.mailboxes, 1), Inbox(w.mailboxes, 2), w.phase, Sent(w, 2), w.posting)
  }

  /** The view after the first `k` events of `StaleTrace`, with the source's handler. */
  function Expected(k: nat, older: Config, newer: Config): View
    requires k <= StaleLength
  {
    var one := map[1 := Active];
    var both := map[1 := Active, 2 := Active];
    var stale := [CurrentConfigText(Some(older))];
    match k
    case 0 => View(None, {}, [], [], [], map[], [], [])
    case 1 => View(None, {}, [Connect(1)], [], [], one, [], [])
    case 2 => View(None, {1}, [], [], [], one, [], [])
    case 3 => View(Some(older), {1}, [], [], [], one, [], [SendHub(Broadcast(older))])
    case 4 => View(Some(older), {1}, [Broadcast(older)], [], [], one, [], [])
    case 5 => View(Some(older), {1}, [], [older], [], one, [], [])
    case 6 => View(Some(newer), {1}, [], [older], [], one, [], [SendHub(Broadcast(newer))])
    case 7 => View(Some(newer), {1}, [Broadcast(newer)], [older], [], one, [], [])
    case 8 => View(Some(older), {1}, [Broadcast(newer)], [], [], one, [], [])
    case 9 => View(Some(older), {1}, [Broadcast(newer), Connect(2)], [], [], both, stale, [])
    case 10 => View(Some(older), {1}, [Connect(2)], [newer], [], both, stale, [])
    case 11 => View(Some(older), {1, 2}, [], [newer], [], both, stale, [])
    case _ => View(Some(newer), {1, 2}, [], [], [], both, stale, [])
  }

  lemma ViewStart(w: World, h: Handle)
    requires h !in w.phase
    ensures var v := ViewOf(w);
      ViewOf(Step(AsWritten, w, Start(h)))
      == v.(queue := v.queue + [Connect(h)], phase := v.phase[h := Active],
            sent2 := if h == 2 then v.sent2 + [CurrentConfigText(v.shared)] else v.sent2)
  {
    StartRegistersThenSends(AsWritten, w, h);
  }

  lemma ViewHubBroadcast(w: World, c: Config)
    requires |w.hubQueue| > 0 && w.hubQueue[0] == Broadcast(c)
    ensures var v := ViewOf(w);
      ViewOf(Step(AsWritten, w, HubTurn))
      == v.(queue := v.queue[1..],
            inbox1 := v.inbox1 + (if 1 in v.sessions then [c] else []),
            inbox2 := v.inbox2 + (if 2 in v.sessions then [c] else []))
  {
    HubBroadcastFansOut(AsWritten, w, c);
  }

  lemma ViewHubConnect(w: World, h: Handle)
    requires |w.hubQueue| > 0 && w.hubQueue[0] == Connect(h)
    ensures var v := ViewOf(w);
      ViewOf(Step(AsWritten, w, HubTurn)) == v.(sessions := Register(v.sessions, h), queue := v.queue[1..])
  {
    HubTurnHandlesOldest(AsWritten, w);
  }

  lemma ViewPoll(w: World, c: Config)
    requires w.posting == []
    ensures var v := ViewOf(w);
      ViewOf(Step(AsWritten, w, Poll(Fetched(c)))) == v.(shared := Some(c), posting := [SendHub(Broadcast(c))])
  {
    FetchInstalls(AsWritten, w, c);
  }

  lemma ViewPollSend(w: World, c: Config)
    requires w.posting == [SendHub(Broadcast(c))]
    ensures var v := ViewOf(w);
      ViewOf(Step(AsWritten, w, PollSend)) == v.(queue := v.queue + [Broadcast(c)], posting := [])
  {
    PollSendBroadcasts(AsWritten, w, c);
  }

  lemma ViewDeliverOne(w: World)
    requires IsActive(w, 1) && |Inbox(w.mailboxes, 1)| > 0
    ensures var v := ViewOf(w);
      ViewOf(Step(AsWritten, w, Deliver(1))) == v.(shared := Some(v.inbox1[0]), inbox1 := v.inbox1[1..])
  {
    DeliverRelays(AsWritten, w, 1);
  }

  /** One event of the stale run: the view after event `k` follows from the view before it. */
  lemma StaleStep(w: World, k: nat, older: Config, newer: Config)
    requires k < StaleLength && ViewOf(w) == Expected(k, older, newer)
    ensures ViewOf(Step(AsWritten, w, StaleTrace(older, newer)[k])) == Expected(k + 1, older, newer)
  {
    match k
    case 0 => Stale0(w, older, newer);
    case 1 => Stale1(w, older, newer);
    case 2 => Stale2(w, older, newer);
    case 3 => Stale3(w, older, newer);
    case 4 => Stale4(w, older, newer);
    case 5 => Stale5(w, older, newer);
    case 6 => Stale6(w, older, newer);
    case 7 => Stale7(w, older, newer);
    case 8 => Stale8(w, older, newer);
    case 9 => Stale9(w, older, newer);
    case 10 => Stale10(w, older, newer);
    case _ => Stale11(w, older, newer);
  }

  lemma Stale0(w: World, older: Config, newer: Config)
    requires ViewOf(w) == Expected(0, older, newer)
    ensures ViewOf(Step(AsWritten, w, StaleTrace(older, newer)[0])) == Expected(1, older, newer)
  {
    ViewStart(w, 1);
  }

  lemma Stale1(w: World, older: Config, newer: Config)
    requires ViewOf(w) == Expected(1, older, newer)
    ensures ViewOf(Step(AsWritten, w, StaleTrace(older, newer)[1])) == Expected(2, older, newer)
  {
    assert w.hubQueue == [Connect(1)];
    ViewHubConnect(w, 1);
  }

  lemma Stale2(w: World, older: Config, newer: Config)
    requires ViewOf(w) == Expected(2, older, newer)
    ensures ViewOf(Step(AsWritten, w, StaleTrace(older, newer)[2])) == Expected(3, older, newer)
  {
    ViewPoll(w, older);
  }

  lemma Stale3(w: World, older: Config, newer: Config)
    requires ViewOf(w) == Expected(3, older, newer)
    ensures ViewOf(Step(AsWritten, w, StaleTrace(older, newer)[3])) == Expected(4, older, newer)
  {
    ViewPollSend(w, older);
  }

  lemma Stale4(w: World, older: Config, newer: Config)
    requires ViewOf(w) == Expected(4, older, newer)
    ensures ViewOf(Step(AsWritten, w, StaleTrace(older, newer)[4])) == Expected(5, older, newer)
  {
    assert w.hubQueue == [Broadcast(older)];
    ViewHubBroadcast(w, older);
  }

  lemma Stale5(w: World, older: Config, newer: Config)
    requires ViewOf(w) == Expected(5, older, newer)
    ensures ViewOf(Step(AsWritten, w, StaleTrace(older, newer)[5])) == Expected(6, older, newer)
  {
    ViewPoll(w, newer);
  }

  lemma Stale6(w: World, older: Config, newer: Config)
    requires ViewOf(w) == Expected(6, older, newer)
    ensures ViewOf(Step(AsWritten, w, StaleTrace(older, newer)[6])) == Expected(7, older, newer)
  {
    ViewPollSend(w, newer);
  }

  lemma Stale7(w: World, older: Config, newer: Config)
    requires ViewOf(w) == Expected(7, older, newer)
    ensures ViewOf(Step(AsWritten, w, StaleTrace(older, newer)[7])) == Expected(8, older, newer)
  {
    ViewDeliverOne(w);
  }

  lemma Stale8(w: World, older: Config, newer: Config)
    requires ViewOf(w) == Expected(8, older, newer)
    ensures ViewOf(Step(AsWritten, w, StaleTrace(older, newer)[8])) == Expected(9, older, newer)
  {
    ViewStart(w, 2);
    StartTwoView(older, newer);
  }

  lemma StartTwoView(older: Config, newer: Config)
    ensures var v := Expected(8, older, newer);
      v.(queue := v.queue + [Connect(2)], phase := v.phase[2 := Active], sent2 := v.sent2 + [CurrentConfigText(v.shared)])
      == Expected(9, older, newer)
  {
    assert map[1 := Active][2 := Active] == map[1 := Active, 2 := Active];
  }

  lemma Stale9(w: World, older: Config, newer: Config)
    requires ViewOf(w) == Expected(9, older, newer)
    ensures ViewOf(Step(AsWritten, w, StaleTrace(older, newer)[9])) == Expected(10, older, newer)
  {
    assert w.hubQueue == [Broadcast(newer), Connect(2)];
    ViewHubBroadcast(w, newer);
    BroadcastNewerView(older, newer);
  }

  lemma BroadcastNewerView(older: Config, newer: Config)
    ensures var v := Expected(9, older, newer);
      v.(queue := v.queue[1..], inbox1 := v.inbox1 + (if 1 in v.sessions then [newer] else []),
         inbox2 := v.inbox2 + (if 2 in v.sessions then [newer] else []))
      == Expected(10, older, newer)
  {
    assert [Broadcast(newer), Connect(2)][1..] == [Connect(2)];
  }

  lemma Stale10(w: World, older: Config, newer: Config)
    requires ViewOf(w) == Expected(10, older, newer)
    ensures ViewOf(Step(AsWritten, w, StaleTrace(older, newer)[10])) == Expected(11, older, newer)
  {
    assert w.hubQueue == [Connect(2)];
    ViewHubConnect(w, 2);
    ConnectTwoView(older, newer);
  }

  lemma ConnectTwoView(older: Config, newer: Config)
    ensures var v := Expected(10, older, newer);
      v.(sessions := Register(v.sessions, 2), queue := []) == Expected(11, older, newer)
  {
    assert Register({1}, 2) == {1, 2};
  }

  lemma Stale11(w: World, older: Config, newer: Config)
    requires ViewOf(w) == Expected(11, older, newer)
    ensures ViewOf(Step(AsWritten, w, StaleTrace(older, newer)[11])) == Expected(12, older, newer)
  {
    ViewDeliverOne(w);
    DeliverLastView(older, newer);
  }

  lemma DeliverLastView(older: Config, newer: Config)
    ensures var v := Expected(11, older, newer);
      v.(shared := Some(v.inbox1[0]), inbox1 := v.inbox1[1..]) == Expected(12, older, newer)
  {
    assert [newer][1..] == [];
  }

  /** From the `k`-th world of the stale run, the rest of the run reaches the expected final view. */
  lemma {:induction false} StaleRunFrom(w: World, k: nat, older: Config, newer: Config)
    requires k <= StaleLength && ViewOf(w) == Expected(k, older, newer)
    ensures ViewOf(Run(AsWritten, w, StaleTrace(older, newer)[k..])) == Expected(StaleLength, older, newer)
    decreases StaleLength - k
  {
    if k < StaleLength {
      StaleStep(w, k, older, newer);
      assert StaleTrace(older, newer)[k..][0] == StaleTrace(older, newer)[k];
      assert StaleTrace(older, newer)[k..][1..] == StaleTrace(older, newer)[k + 1..];
      StaleRunFrom(Step(AsWritten, w, StaleTrace(older, newer)[k]), k + 1, older, newer);
    }
  }

  /** Dropping a first event that is not a poll leaves the fetches unchanged. */
  lemma FetchesInTail(t: seq<Event>)
    requires |t| > 0
    ensures FetchesIn(t) == (if t[0].Poll? then [t[0].fetch] else []) + FetchesIn(t[1..])
  {
  }

  /** The stale run's polls, from its third event on: `older`, then `newer`. */
  lemma StalePollsFetches(older: Config, newer: Config)
    ensures FetchesIn(StaleTrace(older, newer)[2..]) == [Fetched(older), Fetched(newer)]
  {
    var t := StaleTrace(older, newer);
    var k := StaleLength;
    assert FetchesIn(t[k..]) == [];
    while k > 6
      invariant 6 <= k <= StaleLength && FetchesIn(t[k..]) == []
    {
      k := k - 1;
      FetchesInTail(t[k..]);
      assert t[k..][1..] == t[k + 1..];
    }
    FetchesInTail(t[5..]);
    assert t[5..][1..] == t[6..];
    assert FetchesIn(t[5..]) == [Fetched(newer)];
    FetchesInTail(t[4..]);
    assert t[4..][1..] == t[5..];
    FetchesInTail(t[3..]);
    assert t[3..][1..] == t[4..];
    FetchesInTail(t[2..]);
    assert t[2..][1..] == t[3..];
    assert FetchesIn(t[2..]) == [Fetched(older), Fetched(newer)];
  }

  lemma StaleTraceFetches(older: Config, newer: Config)
    ensures LastFetched(None, FetchesIn(StaleTrace(older, newer))) == Some(newer)
  {
    var t := StaleTrace(older, newer);
    StalePollsFetches(older, newer);
    FetchesInTail(t[1..]);
    assert t[1..][1..] == t[2..];
    FetchesInTail(t);
    var fs := [Fetched(older), Fetched(newer)];
    assert FetchesIn(t) == fs;
    assert fs[1..] == [Fetched(newer)];
    assert LastFetched(None, fs) == LastFetched(Some(older), [Fetched(newer)]);
    assert [Fetched(newer)][1..] == [];
    assert LastFetched(Some(older), [Fetched(newer)]) == LastFetched(Some(newer), []);
  }

  /** What the final view of the stale run says about the world it views. */
  lemma StaleFinal(w: World, older: Config, newer: Config)
    requires older != newer && ViewOf(w) == Expected(StaleLength, older, newer)
    ensures IsActive(w, 2) && w.posting == [] && |w.hubQueue| == 0 && Inbox(w.mailboxes, 2) == []
    ensures w.shared == Some(newer)
    ensures Sent(w, 2) == [Ser(older)] && Ser(older) != CurrentConfigText(Some(newer))
  {
    FinalView(older, newer);
    assert CurrentConfigText(Some(older)) == Ser(older);
    assert CurrentConfigText(Some(newer)) == Ser(newer);
    SerInjective(older, newer);
  }

  lemma FinalView(older: Config, newer: Config)
    ensures Expected(StaleLength, older, newer)
      == View(Some(newer), {1, 2}, [], [], [], map[1 := Active, 2 := Active], [CurrentConfigText(Some(older))], [])
  {
  }

  /**
   * With the source's handler, after `StaleTrace` nothing is in flight to session 2, the last
   * fetch and the shared slot are `newer`, yet session 2's client holds only `older`.
   */
  lemma StaleClientAsWritten(older: Config, newer: Config)
    requires older != newer
    ensures var w := Run(AsWritten, Init, StaleTrace(older, newer));
      && IsActive(w, 2)
      && w.posting == [] && |w.hubQueue| == 0 && Inbox(w.mailboxes, 2) == []
      && LastFetched(None, FetchesIn(StaleTrace(older, newer))) == Some(newer)
      && w.shared == Some(newer)
      && Sent(w, 2) == [Ser(older)]
      && Sent(w, 2)[0] != CurrentConfigText(LastFetched(None, FetchesIn(StaleTrace(older, newer))))
  {
    var t := StaleTrace(older, newer);
    assert t[0..] == t;
    StaleRunFrom(Init, 0, older, newer);
    StaleFinal(Run(AsWritten, Init, t), older, newer);
    StaleTraceFetches(older, newer);
  }
}
