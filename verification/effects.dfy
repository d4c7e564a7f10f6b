/**
 * What a handler does to the world, in the order it does it. Handlers in this model are
 * pure functions that read the shared slot once and return their effects; the system
 * model applies them in order.
 */
module Effects {
  import opened Configuration
  import opened Hub

  datatype Effect =
    | SendHub(msg: HubMsg)              // `ws_manager.do_send(..)`: queue a message for the hub
    | SendText(to: Handle, text: string) // `ctx.text(..)`: a text frame to this session's client
    | WriteShared(config: Config)       // `*config_lock = Some(config)`

  /** The texts among `effs`, in order. */
  function Texts(effs: seq<Effect>): seq<string> {
    if |effs| == 0 then []
    else (if effs[0].SendText? then [effs[0].text] else []) + Texts(effs[1..])
  }

  /** No effect of `effs` writes the shared slot. */
  predicate ReadsOnly(effs: seq<Effect>) {
    forall i :: 0 <= i < |effs| ==> !effs[i].WriteShared?
  }
}
