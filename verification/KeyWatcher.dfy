/** The single-key watcher: the same loop over the value of one key. */
module KeyWatcher {
  import opened Options
  import opened EtcdModel
  import opened WatchLoop
  import F = WatcherFanout

  datatype Event = FullSync(value: Option<string>)

  function Apply(e: Event, v: Option<string>): Option<string> {
    e.value
  }

  /** At most one event, none exactly when nothing changed, and it carries the new value. */
  ghost predicate Delta(es: seq<Event>, v: Option<string>, w: Option<string>) {
    (es == [] && v == w) || (|es| == 1 && v != w && Apply(es[0], v) == w)
  }

  const WATCHER_MAX_BACKLOG_SIZE: nat := 16

  function KeyKind(): F.Kind<Option<string>, Event> {
    F.Kind((e: Event, v: Option<string>) => Apply(e, v), (v: Option<string>) => FullSync(v), WATCHER_MAX_BACKLOG_SIZE)
  }

  /** A delta is what the fan-out asks of the events it publishes. */
  lemma DeltaFolds(es: seq<Event>, v: Option<string>, w: Option<string>)
    requires Delta(es, v, w)
    ensures F.Lawful(KeyKind()) && F.Fold(KeyKind(), es, v) == w
  {
    if es != [] {
      assert es[..0] == [];
    }
  }

  function ComputeDeltaEvent(v: Option<string>, next: Option<string>): (r: (seq<Event>, Option<string>))
    ensures r.1 == next && Delta(r.0, v, next)
  {
    if next != v then ([FullSync(next)], next) else ([], v)
  }

  function BeginWatching(get: Result<GetResponse, EtcdError>): Result<WatchState<Option<string>>, EtcdError> {
    match get
    case Err(KeyNotFound(index)) => Ok(WatchState(None, index))
    case Err(e) => Err(e)
    case Ok(r) => Ok(WatchState(r.node.value, OrZero(r.etcdIndex)))
  }

  function CallWatch(s: WatchState<Option<string>>, watch: Result<WatchResponse, EtcdError>)
      : Result<WatchResult<Option<string>, Event>, EtcdError>
  {
    match watch
    case Err(e) =>
      if ErrShouldResetWatcher(e) then Ok(Reset) else if ErrIsWatchTimeout(e) then Ok(Timeout) else Err(e)
    case Ok(r) =>
      var delta := ComputeDeltaEvent(s.currentValue, r.node.value);
      Ok(Success(delta.0, WatchState(delta.1, OrZero(r.node.modifiedIndex))))
  }

  function CallReset(v: Option<string>, get: Result<GetResponse, EtcdError>)
      : Result<WatchResult<Option<string>, Event>, EtcdError>
  {
    match BeginWatching(get)
    case Err(e) => Err(e)
    case Ok(begun) =>
      var delta := ComputeDeltaEvent(v, begun.currentValue);
      Ok(Success(delta.0, WatchState(delta.1, begun.waitIndex)))
  }

  function RunLoopOnce(s: WatchLoopState<Option<string>>, a: Answer): (r: (WatchLoopState<Option<string>>, seq<Event>))
    ensures Delta(r.1, s.state.currentValue, r.0.state.currentValue)
  {
    match s
    case ContinueWatching(w) => AfterCall(s, CallWatch(w, a.watch))
    case ResetWatcher(w) => AfterCall(s, CallReset(w.currentValue, a.get))
  }

  // ---------------------------------------------------------------- following the log

  function Lookup(key: string, v: map<string, string>): Option<string> {
    if key in v then Some(v[key]) else None
  }

  ghost predicate Follows(key: string, log: seq<Entry>, s: WatchState<Option<string>>) {
    s.waitIndex <= |log| && s.currentValue == Lookup(key, Replay(log[..s.waitIndex]))
  }

  /** Entries that can change the key: its own, and the removal of a directory around it. */
  predicate Concerns(key: string, e: Entry) {
    e.key == key || (e.RemoveDir? && Below(e.key, key))
  }

  ghost predicate Watched(key: string, log: seq<Entry>, s: WatchState<Option<string>>, r: WatchResponse, i: nat) {
    && s.waitIndex <= i < |log|
    && (forall j :: s.waitIndex <= j < i ==> !Concerns(key, log[j]))
    && Concerns(key, log[i])
    && Reports(r, log[i], i + 1)
  }

  /** A get answers with the key's value at etcd's current index, which never runs backwards. */
  ghost predicate HonestGet(key: string, log: seq<Entry>, s: WatchState<Option<string>>, get: Result<GetResponse, EtcdError>) {
    match get
    case Err(KeyNotFound(index)) => s.waitIndex <= index <= |log| && key !in Replay(log[..index])
    case Err(_) => true
    case Ok(r) =>
      && r.etcdIndex.Some? && s.waitIndex <= r.etcdIndex.value <= |log|
      && r.node.value == Lookup(key, Replay(log[..r.etcdIndex.value]))
  }

  ghost predicate Honest(key: string, log: seq<Entry>, s: WatchState<Option<string>>, a: Answer) {
    && (a.watch.Ok? ==> exists i :: Watched(key, log, s, a.watch.value, i))
    && HonestGet(key, log, s, a.get)
  }

  lemma {:induction false} UntouchedKeeps(key: string, log: seq<Entry>, lo: nat, hi: nat)
    requires lo <= hi <= |log|
    requires forall j :: lo <= j < hi ==> !Concerns(key, log[j])
    ensures Lookup(key, Replay(log[..hi])) == Lookup(key, Replay(log[..lo]))
    decreases hi
  {
    if lo < hi {
      UntouchedKeeps(key, log, lo, hi - 1);
      assert log[..hi][..hi - 1] == log[..hi - 1];
    }
  }

  lemma WatchFollows(key: string, log: seq<Entry>, s: WatchState<Option<string>>, r: WatchResponse, i: nat)
    requires Sound(log) && Follows(key, log, s) && Watched(key, log, s, r, i)
    ensures Follows(key, log, WatchState(r.node.value, i + 1))
  {
    UntouchedKeeps(key, log, s.waitIndex, i);
    assert log[..i + 1][..i] == log[..i];
  }

  lemma NextFollows(key: string, log: seq<Entry>, s: WatchLoopState<Option<string>>, a: Answer)
    requires Sound(log) && Follows(key, log, s.state) && Honest(key, log, s.state, a)
    ensures Follows(key, log, RunLoopOnce(s, a).0.state)
    ensures s.state.waitIndex <= RunLoopOnce(s, a).0.state.waitIndex
  {
    if s.ContinueWatching? && a.watch.Ok? {
      var i: nat :| Watched(key, log, s.state, a.watch.value, i);
      WatchFollows(key, log, s.state, a.watch.value, i);
    }
  }

  function Run(s: WatchLoopState<Option<string>>, answers: seq<Answer>): WatchLoopState<Option<string>> {
    if answers == [] then s else RunLoopOnce(Run(s, answers[..|answers| - 1]), answers[|answers| - 1]).0
  }

  ghost predicate HonestRun(key: string, log: seq<Entry>, s: WatchLoopState<Option<string>>, answers: seq<Answer>) {
    answers == [] ||
    (&& HonestRun(key, log, s, answers[..|answers| - 1])
     && Honest(key, log, Run(s, answers[..|answers| - 1]).state, answers[|answers| - 1]))
  }

  /**
    The loop gives up its index exactly when etcd has cleared it, and takes up watching
    again exactly when a get tells it about the key. Any other failure leaves it as it was.
  */
  lemma ResetsExactlyWhen(w: WatchState<Option<string>>, a: Answer)
    ensures var s := RunLoopOnce(ContinueWatching(w), a).0;
      && (s.ResetWatcher? <==> a.watch == Err(Api(401)))
      && (a.watch.Err? ==> s.state == w)
    ensures var s := RunLoopOnce(ResetWatcher(w), a).0;
      && (s.ContinueWatching? <==> a.get.Ok? || a.get.error.KeyNotFound?)
      && (s.ResetWatcher? ==> s.state == w)
  {
  }

  predicate GetFails(a: Answer) {
    a.get.Err? && !a.get.error.KeyNotFound?
  }

  lemma {:induction false} FailuresChangeNothing(w: WatchState<Option<string>>, failures: seq<Answer>)
    requires forall i :: 0 <= i < |failures| ==> GetFails(failures[i])
    ensures Run(ResetWatcher(w), failures) == ResetWatcher(w)
  {
    if failures != [] {
      FailuresChangeNothing(w, failures[..|failures| - 1]);
    }
  }

  /** After a cleared index, however many gets fail, the first that succeeds puts the loop back on the log at its index. */
  lemma ResetHeals(key: string, log: seq<Entry>, w: WatchState<Option<string>>, a: Answer, failures: seq<Answer>, b: Answer)
    requires a.watch == Err(Api(401))
    requires forall i :: 0 <= i < |failures| ==> GetFails(failures[i])
    requires !GetFails(b) && HonestGet(key, log, w, b.get)
    ensures var s := RunLoopOnce(Run(RunLoopOnce(ContinueWatching(w), a).0, failures), b).0;
      && s.ContinueWatching? && Follows(key, log, s.state)
      && s.state.waitIndex == if b.get.Ok? then b.get.value.etcdIndex.value else b.get.error.index
  {
    ResetsExactlyWhen(w, a);
    FailuresChangeNothing(w, failures);
  }

  /** The first read of the key starts the loop on the log. */
  lemma StartFollows(key: string, log: seq<Entry>, get: Result<GetResponse, EtcdError>)
    requires HonestGet(key, log, WatchState(None, 0), get) && BeginWatching(get).Ok?
    ensures Follows(key, log, BeginWatching(get).value)
  {
  }

  /** Log refinement for one key: the value is the key's value in the log at the wait index. */
  lemma {:induction false} RunFollows(key: string, log: seq<Entry>, s: WatchLoopState<Option<string>>, answers: seq<Answer>)
    requires Sound(log) && Follows(key, log, s.state) && HonestRun(key, log, s, answers)
    ensures Follows(key, log, Run(s, answers).state)
    ensures s.state.waitIndex <= Run(s, answers).state.waitIndex
  {
    if answers != [] {
      RunFollows(key, log, s, answers[..|answers| - 1]);
      NextFollows(key, log, Run(s, answers[..|answers| - 1]), answers[|answers| - 1]);
    }
  }
}
