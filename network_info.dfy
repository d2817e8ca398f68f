/** Connectivity: the two-flag reachability test and the online/offline dispatcher. */
module NetworkInfo {
  import opened Wrappers

  /**
   * The part of NetInfo's state that `isConnected` reads. Each flag is a
   * boolean that the platform may leave null or undefined (`None`).
   */
  datatype NetInfoState = NetInfoState(isConnected: Option<bool>, isInternetReachable: Option<bool>)

  /** JavaScript's `!!` applied to a boolean that may be null or undefined. */
  predicate Truthy(flag: Option<bool>)
  {
    match flag
    case Some(b) => b
    case None => false
  }

  /** The device counts as online only when both flags are true; an unknown flag counts as false. */
  function IsConnected(state: NetInfoState): (r: bool)
    ensures r <==> state.isConnected == Some(true) && state.isInternetReachable == Some(true)
    ensures state.isInternetReachable.None? || state.isConnected.None? ==> !r
  {
    Truthy(state.isConnected) && Truthy(state.isInternetReachable)
  }

  /** What one call of the dispatcher does, in order. */
  datatype Event = QueryConnectivity | RunOnline | RunOffline

  /** The events of one dispatch and the value it resolves to. */
  datatype Dispatch<T> = Dispatch(events: seq<Event>, value: T)

  /**
   * Queries connectivity once (the platform answers with `state`), then runs
   * exactly one of the two callbacks and resolves to that callback's result.
   */
  function ExecuteWithConnectivityCheck<T>(state: NetInfoState, onlineCallback: () -> T, offlineCallback: () -> T): (r: Dispatch<T>)
    ensures |r.events| == 2 && r.events[0] == QueryConnectivity
    ensures r.events[1] == RunOnline <==> IsConnected(state)
    ensures r.events[1] == RunOffline <==> !IsConnected(state)
    ensures r.value == if r.events[1] == RunOnline then onlineCallback() else offlineCallback()
  {
    var connected := IsConnected(state);
    if connected then Dispatch([QueryConnectivity, RunOnline], onlineCallback())
    else Dispatch([QueryConnectivity, RunOffline], offlineCallback())
  }

  /** Connectivity is queried exactly once, before anything else, and exactly one callback runs. */
  lemma ExactlyOneCallbackRuns<T>(state: NetInfoState, onlineCallback: () -> T, offlineCallback: () -> T)
    ensures var events := ExecuteWithConnectivityCheck(state, onlineCallback, offlineCallback).events;
      events[0] == QueryConnectivity
      && multiset(events)[QueryConnectivity] == 1
      && multiset(events)[RunOnline] + multiset(events)[RunOffline] == 1
  {
    var events := ExecuteWithConnectivityCheck(state, onlineCallback, offlineCallback).events;
    assert events == [QueryConnectivity, events[1]];
  }
}
