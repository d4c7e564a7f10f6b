/**
 * The broadcast hub (`WsManager`): the registry of live session addresses and the
 * fan-out of every configuration update to each registered session's mailbox.
 */
module Hub {
  import opened Configuration

  /** A session's address (`Addr<ConfigWs>`): equal exactly when it is the same connection. */
  type Handle = nat

  /** The messages the hub handles, in the order they reach its mailbox. */
  datatype HubMsg =
    | Connect(addr: Handle)
    | Disconnect(addr: Handle)
    | Broadcast(config: Config)  // GenericWsMessage (also sent under the name ConfigUpdateMsg)

  /** For each session address, the GenericWsMessage deliveries waiting in its mailbox, oldest first. */
  type Mailboxes = map<Handle, seq<Config>>

  function Inbox(m: Mailboxes, h: Handle): seq<Config> {
    if h in m then m[h] else []
  }

  /** `Handler<Connect>`: insert the address into the registry. */
  function Register(sessions: set<Handle>, h: Handle): (r: set<Handle>)
    ensures h in r
    ensures forall g :: g != h ==> (g in r <==> g in sessions)
    ensures |r| == if h in sessions then |sessions| else |sessions| + 1
  {
    assert h in sessions ==> sessions + {h} == sessions;
    sessions + {h}
  }

  /** `Handler<Disconnect>`: remove the address from the registry, if present. */
  function Deregister(sessions: set<Handle>, h: Handle): (r: set<Handle>)
    ensures h !in r
    ensures forall g :: g != h ==> (g in r <==> g in sessions)
    ensures |r| == if h in sessions then |sessions| - 1 else |sessions|
  {
    sessions - {h}
  }

  /** `Handler<GenericWsMessage>`: one copy of the message to every registered address. */
  function FanOut(sessions: set<Handle>, m: Mailboxes, c: Config): (r: Mailboxes)
    ensures forall h :: Inbox(r, h) == Inbox(m, h) + (if h in sessions then [c] else [])
  {
    map h | h in m.Keys + sessions :: Inbox(m, h) + (if h in sessions then [c] else [])
  }

  /**
   * The fan-out as the source writes it: a loop over the registry that sends to one
   * address at a time; a send only ever touches its own address's mailbox.
   */
  method BroadcastLoop(sessions: set<Handle>, m: Mailboxes, c: Config) returns (r: Mailboxes)
    ensures forall h :: Inbox(r, h) == Inbox(m, h) + (if h in sessions then [c] else [])
  {
    r := m;
    var todo := sessions;
    while todo != {}
      invariant todo <= sessions
      invariant forall h :: Inbox(r, h) == Inbox(m, h) + (if h in sessions - todo then [c] else [])
      decreases todo
    {
      var h :| h in todo;
      r := r[h := Inbox(r, h) + [c]];
      todo := todo - {h};
    }
  }

  /** The registry after the hub handles one message. */
  function Apply(sessions: set<Handle>, msg: HubMsg): set<Handle> {
    match msg
    case Connect(h) => Register(sessions, h)
    case Disconnect(h) => Deregister(sessions, h)
    case Broadcast(_) => sessions
  }

  datatype HubState = HubState(sessions: set<Handle>, mailboxes: Mailboxes)

  /** The hub's handler for one message. */
  function HandleMsg(st: HubState, msg: HubMsg): (r: HubState)
    ensures r.sessions == Apply(st.sessions, msg)
    ensures !msg.Broadcast? ==> r.mailboxes == st.mailboxes
    ensures forall h ::
              Inbox(r.mailboxes, h) == Inbox(st.mailboxes, h) + (if msg.Broadcast? && h in st.sessions then [msg.config] else [])
  {
    match msg
    case Broadcast(c) => HubState(st.sessions, FanOut(st.sessions, st.mailboxes, c))
    case _ => HubState(Apply(st.sessions, msg), st.mailboxes)
  }

  /** The hub handling every message of its queue in order. */
  function HandleAll(st: HubState, q: seq<HubMsg>): HubState
    decreases |q|
  {
    if |q| == 0 then st else HandleAll(HandleMsg(st, q[0]), q[1..])
  }

  /** The registry after the hub has handled the queue `q`. */
  function Registry(sessions: set<Handle>, q: seq<HubMsg>): set<Handle>
    decreases |q|
  {
    if |q| == 0 then sessions else Registry(Apply(sessions, q[0]), q[1..])
  }

  /** Reference definition: the configurations the queue `q` will deliver to `h`, in order. */
  function Owed(sessions: set<Handle>, q: seq<HubMsg>, h: Handle): seq<Config>
    decreases |q|
  {
    if |q| == 0 then []
    else
      (if q[0].Broadcast? && h in sessions then [q[0].config] else [])
      + Owed(Apply(sessions, q[0]), q[1..], h)
  }

  // ---------------------------------------------------------------------------
  // Properties

  /** Registering twice is the same as registering once; deregistering an absent address changes nothing. */
  lemma MembershipIdempotent(sessions: set<Handle>, h: Handle)
    ensures Register(Register(sessions, h), h) == Register(sessions, h)
    ensures h in sessions ==> Register(sessions, h) == sessions
    ensures Deregister(Deregister(sessions, h), h) == Deregister(sessions, h)
    ensures h !in sessions ==> Deregister(sessions, h) == sessions
  {
  }

  /** Handling a queue leaves the registry `Registry` describes. */
  lemma {:induction false} HandleAllRegistry(st: HubState, q: seq<HubMsg>)
    ensures HandleAll(st, q).sessions == Registry(st.sessions, q)
    decreases |q|
  {
    if |q| > 0 {
      HandleAllRegistry(HandleMsg(st, q[0]), q[1..]);
    }
  }

  lemma AppendAssoc<T>(a: seq<T>, b: seq<T>, c: seq<T>)
    ensures (a + b) + c == a + (b + c)
  {
  }

  /** Handling a queue delivers to each address exactly what `Owed` says, after what it already held. */
  lemma {:induction false} HandleAllDelivers(st: HubState, q: seq<HubMsg>, h: Handle)
    ensures Inbox(HandleAll(st, q).mailboxes, h) == Inbox(st.mailboxes, h) + Owed(st.sessions, q, h)
    decreases |q|
  {
    if |q| == 0 {
      assert HandleAll(st, q) == st;
    } else {
      var st' := HandleMsg(st, q[0]);
      var head := if q[0].Broadcast? && h in st.sessions then [q[0].config] else [];
      HandleAllDelivers(st', q[1..], h);
      assert HandleAll(st, q) == HandleAll(st', q[1..]);
      assert Inbox(st'.mailboxes, h) == Inbox(st.mailboxes, h) + head;
      assert Owed(st.sessions, q, h) == head + Owed(st'.sessions, q[1..], h);
      AppendAssoc(Inbox(st.mailboxes, h), head, Owed(st'.sessions, q[1..], h));
    }
  }

  /**
   * An address that is not registered and whose Connect is not in the queue receives
   * nothing from the queue and is still unregistered after it.
   */
  lemma {:induction false} NoDeliveryWithoutConnect(sessions: set<Handle>, q: seq<HubMsg>, h: Handle)
    requires h !in sessions
    requires forall i :: 0 <= i < |q| ==> q[i] != Connect(h)
    ensures Owed(sessions, q, h) == []
    ensures h !in Registry(sessions, q)
    decreases |q|
  {
    if |q| > 0 {
      assert q[0] != Connect(h);
      NoDeliveryWithoutConnect(Apply(sessions, q[0]), q[1..], h);
    }
  }

  /** After a Disconnect, no later broadcast reaches the address unless it connects again. */
  lemma NoDeliveryAfterDisconnect(st: HubState, q: seq<HubMsg>, h: Handle)
    requires forall i :: 0 <= i < |q| ==> q[i] != Connect(h)
    ensures Inbox(HandleAll(st, [Disconnect(h)] + q).mailboxes, h) == Inbox(st.mailboxes, h)
  {
    var q' := [Disconnect(h)] + q;
    assert q'[1..] == q;
    HandleAllDelivers(st, q', h);
    NoDeliveryWithoutConnect(Deregister(st.sessions, h), q, h);
  }

  /** Appending a message to the queue extends the registry by that one message. */
  lemma {:induction false} RegistrySnoc(sessions: set<Handle>, q: seq<HubMsg>, msg: HubMsg)
    ensures Registry(sessions, q + [msg]) == Apply(Registry(sessions, q), msg)
    decreases |q|
  {
    if |q| == 0 {
      assert q + [msg] == [msg];
    } else {
      assert (q + [msg])[1..] == q[1..] + [msg];
      RegistrySnoc(Apply(sessions, q[0]), q[1..], msg);
    }
  }

  /** Appending a message to the queue adds its delivery to `h`, if any, at the end. */
  lemma {:induction false} OwedSnoc(sessions: set<Handle>, q: seq<HubMsg>, msg: HubMsg, h: Handle)
    ensures Owed(sessions, q + [msg], h) == Owed(sessions, q, h)
      + (if msg.Broadcast? && h in Registry(sessions, q) then [msg.config] else [])
    decreases |q|
  {
    if |q| == 0 {
      assert q + [msg] == [msg];
      assert [msg][1..] == [];
    } else {
      var s1 := Apply(sessions, q[0]);
      var head := if q[0].Broadcast? && h in sessions then [q[0].config] else [];
      var tail := if msg.Broadcast? && h in Registry(s1, q[1..]) then [msg.config] else [];
      assert (q + [msg])[0] == q[0];
      assert (q + [msg])[1..] == q[1..] + [msg];
      OwedSnoc(s1, q[1..], msg, h);
      assert Registry(sessions, q) == Registry(s1, q[1..]);
      assert Owed(sessions, q + [msg], h) == head + (Owed(s1, q[1..], h) + tail);
      AppendAssoc(head, Owed(s1, q[1..], h), tail);
    }
  }
}
