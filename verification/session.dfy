/**
 * One client connection's actor (`ConfigWs`): its lifecycle hooks, its handler for inbound
 * frames and its handler for broadcasts relayed by the hub.
 */
module Session {
  import opened RustTypes
  import opened Configuration
  import opened Hub
  import opened Effects

  /** The one inbound command the session recognises. */
  const GetConfigCommand: string := "get_config"

  /** The kinds of websocket frame a client can send; only the text payload matters here. */
  datatype Frame = Text(text: string) | Binary | Continuation | Ping | Pong | Close | Nop

  /** A malformed inbound frame, as reported by the websocket codec. */
  datatype ProtocolError = ProtocolError

  /** `Running` as returned from `stopping`. */
  datatype Running = Stop | Continue

  /** The text `send_current_config` sends for the current content of the shared slot. */
  function CurrentConfigText(shared: Option<Config>): (text: string)
    ensures shared.Some? ==> text == Ser(shared.value)
    ensures text == NotAvailable <==> shared.None?
  {
    match shared
    case Some(c) => NotAvailableIsNoConfig(c); Ser(c)
    case None => NotAvailable
  }

  /** A client can always recover the slot's content from the snapshot text: the marker decodes to no configuration. */
  lemma SnapshotDecodes(shared: Option<Config>)
    ensures Parse(CurrentConfigText(shared)) == shared
  {
    match shared
    case Some(c) => ParseSer(c);
    case None => NotAvailableIsNoConfig(Config(false, "", false, 0));
  }

  /** `send_current_config`: one text frame to this session's client holding the snapshot. */
  function SendCurrentConfig(self: Handle, shared: Option<Config>): (effs: seq<Effect>)
    ensures Texts(effs) == [CurrentConfigText(shared)]
    ensures forall i :: 0 <= i < |effs| ==> effs[i] == SendText(self, CurrentConfigText(shared))
  {
    [SendText(self, CurrentConfigText(shared))]
  }

  /**
   * `started`: register with the hub, then send the snapshot. The Connect is queued
   * before the session's first (and only) text, and nothing writes the shared slot.
   */
  function Started(self: Handle, shared: Option<Config>): (effs: seq<Effect>)
    ensures |effs| == 2 && effs[0] == SendHub(Connect(self))
    ensures forall i :: 0 <= i < |effs| && effs[i].SendText? ==> 0 < i && effs[i].to == self
    ensures Texts(effs) == [CurrentConfigText(shared)]
    ensures ReadsOnly(effs)
  {
    [SendHub(Connect(self))] + SendCurrentConfig(self, shared)
  }

  datatype StopOutcome = StopOutcome(effects: seq<Effect>, running: Running)

  /** `stopping`: deregister from the hub and let the actor stop. */
  function Stopping(self: Handle): (r: StopOutcome)
    ensures r.effects == [SendHub(Disconnect(self))]
    ensures r.running == Stop
  {
    StopOutcome([SendHub(Disconnect(self))], Stop)
  }

  /**
   * The `StreamHandler` for inbound frames: the text "get_config" re-sends the snapshot;
   * every other text, every other frame kind and every protocol error does nothing.
   */
  function OnFrame(self: Handle, shared: Option<Config>, msg: Result<Frame, ProtocolError>): (effs: seq<Effect>)
    ensures |effs| > 0 <==> msg == Ok(Text(GetConfigCommand))
    ensures msg == Ok(Text(GetConfigCommand)) ==> effs == SendCurrentConfig(self, shared)
    ensures ReadsOnly(effs)
  {
    match msg
    case Ok(Text(text)) => if text == GetConfigCommand then SendCurrentConfig(self, shared) else []
    case Err(_) => []
    case Ok(_) => []
  }

  /**
   * `Handler<GenericWsMessage>` as the source writes it: overwrite the shared slot with the
   * relayed configuration, then send its JSON to this session's client.
   */
  function OnBroadcast(self: Handle, c: Config): (effs: seq<Effect>)
    ensures |effs| == 2 && effs[0] == WriteShared(c)
    ensures Texts(effs) == [Ser(c)]
    ensures forall i :: 0 <= i < |effs| && effs[i].SendText? ==> effs[i].to == self
  {
    var effs := [WriteShared(c), SendText(self, Ser(c))];
    assert effs[1..] == [SendText(self, Ser(c))];
    assert Texts(effs[1..]) == [Ser(c)];
    effs
  }

  /**
   * The corrected handler: relay the configuration's JSON to this session's client and
   * leave the shared slot to the poller, its only writer.
   */
  function OnBroadcastRelay(self: Handle, c: Config): (effs: seq<Effect>)
    ensures Texts(effs) == [Ser(c)]
    ensures ReadsOnly(effs)
    ensures forall i :: 0 <= i < |effs| ==> effs[i] == SendText(self, Ser(c))
  {
    [SendText(self, Ser(c))]
  }
}
