/** The background poller: one `fetch_and_update_config` per cycle. */
module Poller {
  import opened RustTypes
  import opened Configuration
  import opened Hub
  import opened Effects

  /** Where a fetch can fail: sending the request, or decoding its JSON body. */
  datatype FetchError = RequestFailed | DecodeFailed

  /** What one upstream fetch produced; the HTTP exchange itself is not modelled. */
  datatype Fetch = Fetched(config: Config) | FetchFailed(error: FetchError)

  datatype Cycle = Cycle(effects: seq<Effect>, result: Result<Config, FetchError>)

  /**
   * `fetch_and_update_config`: on a failed fetch return the error before touching anything;
   * otherwise write the fetched configuration to the shared slot, then queue its broadcast,
   * and return it.
   */
  function FetchAndUpdateConfig(fetch: Fetch): (r: Cycle)
    ensures fetch.FetchFailed? ==> r.effects == [] && r.result == Err(fetch.error)
    ensures fetch.Fetched? ==>
              && r.result == Ok(fetch.config)
              && r.effects == [WriteShared(r.result.value), SendHub(Broadcast(r.result.value))]
    ensures Texts(r.effects) == []
  {
    match fetch
    case FetchFailed(e) => Cycle([], Err(e))
    case Fetched(c) =>
      var effs := [WriteShared(c), SendHub(Broadcast(c))];
      assert effs[1..] == [SendHub(Broadcast(c))];
      assert Texts(effs[1..]) == [];
      Cycle(effs, Ok(c))
  }

  /** Reference: the slot after a run of cycles is the last fetched configuration, or `prior`. */
  function LastFetched(prior: Option<Config>, fetches: seq<Fetch>): Option<Config>
    decreases |fetches|
  {
    if |fetches| == 0 then prior
    else LastFetched(if fetches[0].Fetched? then Some(fetches[0].config) else prior, fetches[1..])
  }

  /** Reference: the broadcasts a run of cycles queues, one per successful fetch, in order. */
  function Broadcasts(fetches: seq<Fetch>): seq<HubMsg>
    decreases |fetches|
  {
    if |fetches| == 0 then []
    else (if fetches[0].Fetched? then [Broadcast(fetches[0].config)] else []) + Broadcasts(fetches[1..])
  }
}
