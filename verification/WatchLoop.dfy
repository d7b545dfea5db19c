/** The states of the watch loop, and how one iteration moves between them. */
module WatchLoop {
  import opened Options
  import opened EtcdModel

  datatype WatchState<V> = WatchState(currentValue: V, waitIndex: nat)

  datatype WatchResult<V, E> = Success(events: seq<E>, state: WatchState<V>) | Timeout | Reset

  datatype WatchLoopState<V> =
    | ContinueWatching(state: WatchState<V>)
    | ResetWatcher(state: WatchState<V>)

  const ETCD_ERROR_CODE_EVENT_INDEX_CLEARED: nat := 401

  predicate ErrShouldResetWatcher(e: EtcdError) {
    e.Api? && e.code == ETCD_ERROR_CODE_EVENT_INDEX_CLEARED
  }

  predicate ErrIsWatchTimeout(e: EtcdError) {
    e.WatchTimeout?
  }

  /** One iteration, once the call to the watcher has returned. */
  function AfterCall<V, E>(s: WatchLoopState<V>, result: Result<WatchResult<V, E>, EtcdError>)
      : (WatchLoopState<V>, seq<E>)
  {
    match result
    case Err(_) => (s, [])
    case Ok(Success(events, state)) => (ContinueWatching(state), events)
    case Ok(Timeout) => (ContinueWatching(s.state), [])
    case Ok(Reset) => (ResetWatcher(s.state), [])
  }
}
