/**
  The whole watcher, for a directory and for a single key: the loop that follows etcd, the
  fan-out, and any number of consumers between its iterations.
*/
module Watcher {
  import opened Options
  import opened EtcdModel
  import opened WatchLoop
  import opened Subscribers
  import F = WatcherFanout
  import D = WatchEvents
  import R = RecursiveKeyWatcher
  import K = KeyWatcher

  /** One turn of a schedule: an iteration with etcd's answer, or something a consumer does. */
  datatype Act = Iterate(answer: Answer) | Visited(visit: Visit)

  /** The answers etcd gave in a schedule. */
  function Answers(schedule: seq<Act>): seq<Answer> {
    if schedule == [] then []
    else
      var init, last := Answers(schedule[..|schedule| - 1]), schedule[|schedule| - 1];
      if last.Iterate? then init + [last.answer] else init
  }

  lemma OneMoreAct(schedule: seq<Act>, n: nat)
    requires n < |schedule|
    ensures Answers(schedule[..n + 1])
         == if schedule[n].Iterate? then Answers(schedule[..n]) + [schedule[n].answer] else Answers(schedule[..n])
  {
    assert schedule[..n + 1][..n] == schedule[..n];
  }

  // ---------------------------------------------------------------- a directory

  const RECURSIVE_MAX_BACKLOG_SIZE: nat := 64

  function RecursiveKind(): F.Kind<D.Items, D.Event> {
    F.Kind((e: D.Event, v: D.Items) => D.Apply(e, v), (v: D.Items) => D.FullSync(v), RECURSIVE_MAX_BACKLOG_SIZE)
  }

  lemma {:induction false} SameFold(es: seq<D.Event>, v: D.Items)
    ensures F.Fold(RecursiveKind(), es, v) == D.Fold(es, v)
  {
    if es != [] {
      SameFold(es[..|es| - 1], v);
    }
  }

  lemma RunOneMore(root: string, s: WatchLoopState<D.Items>, answers: seq<Answer>, a: Answer)
    ensures R.Run(root, s, answers + [a]) == R.Next(root, R.Run(root, s, answers), a)
  {
    assert (answers + [a])[..|answers|] == answers;
  }

  type Consumer = F.WatcherEvents<D.Items, D.Event>

  /** One iteration of the loop, published to the subscribers. */
  method Iteration(root: string, inner: F.WatcherInner<D.Items, D.Event>, s: WatchLoopState<D.Items>, a: Answer,
                   ghost consumers: seq<Consumer>)
      returns (s': WatchLoopState<D.Items>)
    requires inner.kind == RecursiveKind() && inner.currentValue == s.state.currentValue
    requires AllServed(inner, consumers)
    modifies inner
    ensures AllServed(inner, consumers)
    ensures s' == R.Next(root, s, a) && inner.currentValue == s'.state.currentValue
  {
    var events;
    s', events := R.RunLoopOnce(root, s, a);
    SameFold(events, s.state.currentValue);
    Publish(inner, events, s'.state.currentValue, consumers);
  }

  /** Runs any schedule of iterations and visits. */
  method Serve(root: string, inner: F.WatcherInner<D.Items, D.Event>, start: WatchState<D.Items>, schedule: seq<Act>)
      returns (s: WatchLoopState<D.Items>, consumers: seq<Consumer>)
    requires inner.Valid() && inner.kind == RecursiveKind() && inner.currentValue == start.currentValue
    modifies inner
    ensures AllServed(inner, consumers)
    ensures s == R.Run(root, ContinueWatching(start), Answers(schedule)) && inner.currentValue == s.state.currentValue
  {
    s, consumers := ContinueWatching(start), [];
    for n := 0 to |schedule|
      invariant AllServed(inner, consumers) && fresh(All(consumers))
      invariant s == R.Run(root, ContinueWatching(start), Answers(schedule[..n]))
      invariant inner.currentValue == s.state.currentValue
    {
      OneMoreAct(schedule, n);
      match schedule[n] {
        case Iterate(a) =>
          RunOneMore(root, ContinueWatching(start), Answers(schedule[..n]), a);
          s := Iteration(root, inner, s, a, consumers);
        case Visited(visit) =>
          consumers := Attend(inner, consumers, visit);
      }
    }
    assert schedule[..|schedule|] == schedule;
  }

  /**
    End to end: after any schedule on an honest etcd, a consumer that is still subscribed
    and reads what it was sent holds the watched subtree of the log at the loop's index
    plus the phantoms left, so the subtree itself if and only if none is left.
  */
  lemma ConsumerFollowsLog(root: string, log: seq<Entry>, inner: F.WatcherInner<D.Items, D.Event>, start: WatchState<D.Items>,
                           schedule: seq<Act>, c: Consumer)
    requires Sound(log) && R.Follows(root, log, start)
    requires R.HonestRun(root, log, ContinueWatching(start), Answers(schedule))
    requires c.Valid() && c.handle == inner && inner.kind == RecursiveKind() && c.subscriptionId in inner.watchers
    requires inner.currentValue == R.Run(root, ContinueWatching(start), Answers(schedule)).state.currentValue
    ensures var s := R.Run(root, ContinueWatching(start), Answers(schedule)).state;
      var phantoms := R.PhantomsOf(root, ContinueWatching(start), Answers(schedule));
      && s.waitIndex <= |log|
      && D.Fold(c.Unread(), c.replica) == At(root, log, s.waitIndex) + R.Blank(phantoms)
      && (D.Fold(c.Unread(), c.replica) == At(root, log, s.waitIndex) <==> phantoms == {})
  {
    R.RunFollows(root, log, ContinueWatching(start), Answers(schedule));
    F.Converges(c);
    SameFold(c.Unread(), c.replica);
  }

  // ---------------------------------------------------------------- a single key

  type KeyConsumer = F.WatcherEvents<Option<string>, K.Event>

  lemma KeyRunOneMore(s: WatchLoopState<Option<string>>, answers: seq<Answer>, a: Answer)
    ensures K.Run(s, answers + [a]) == K.RunLoopOnce(K.Run(s, answers), a).0
  {
    assert (answers + [a])[..|answers|] == answers;
  }

  method KeyIteration(inner: F.WatcherInner<Option<string>, K.Event>, s: WatchLoopState<Option<string>>, a: Answer,
                      ghost consumers: seq<KeyConsumer>)
      returns (s': WatchLoopState<Option<string>>)
    requires inner.kind == K.KeyKind() && inner.currentValue == s.state.currentValue
    requires AllServed(inner, consumers)
    modifies inner
    ensures AllServed(inner, consumers)
    ensures s' == K.RunLoopOnce(s, a).0 && inner.currentValue == s'.state.currentValue
  {
    var (next, events) := K.RunLoopOnce(s, a);
    K.DeltaFolds(events, s.state.currentValue, next.state.currentValue);
    Publish(inner, events, next.state.currentValue, consumers);
    s' := next;
  }

  /** The same for a single key. */
  method ServeKey(inner: F.WatcherInner<Option<string>, K.Event>, start: WatchState<Option<string>>, schedule: seq<Act>)
      returns (s: WatchLoopState<Option<string>>, consumers: seq<KeyConsumer>)
    requires inner.Valid() && inner.kind == K.KeyKind() && inner.currentValue == start.currentValue
    modifies inner
    ensures AllServed(inner, consumers)
    ensures s == K.Run(ContinueWatching(start), Answers(schedule)) && inner.currentValue == s.state.currentValue
  {
    s, consumers := ContinueWatching(start), [];
    for n := 0 to |schedule|
      invariant AllServed(inner, consumers) && fresh(All(consumers))
      invariant s == K.Run(ContinueWatching(start), Answers(schedule[..n]))
      invariant inner.currentValue == s.state.currentValue
    {
      OneMoreAct(schedule, n);
      match schedule[n] {
        case Iterate(a) =>
          KeyRunOneMore(ContinueWatching(start), Answers(schedule[..n]), a);
          s := KeyIteration(inner, s, a, consumers);
        case Visited(visit) =>
          consumers := Attend(inner, consumers, visit);
      }
    }
    assert schedule[..|schedule|] == schedule;
  }

  /** End to end for a single key: a subscribed consumer that reads what it was sent holds the key's value in the log. */
  lemma KeyConsumerFollowsLog(key: string, log: seq<Entry>, inner: F.WatcherInner<Option<string>, K.Event>,
                              start: WatchState<Option<string>>, schedule: seq<Act>, c: KeyConsumer)
    requires Sound(log) && K.Follows(key, log, start)
    requires K.HonestRun(key, log, ContinueWatching(start), Answers(schedule))
    requires c.Valid() && c.handle == inner && inner.kind == K.KeyKind() && c.subscriptionId in inner.watchers
    requires inner.currentValue == K.Run(ContinueWatching(start), Answers(schedule)).state.currentValue
    ensures var s := K.Run(ContinueWatching(start), Answers(schedule)).state;
      s.waitIndex <= |log| && F.Fold(K.KeyKind(), c.Unread(), c.replica) == K.Lookup(key, Replay(log[..s.waitIndex]))
  {
    K.RunFollows(key, log, ContinueWatching(start), Answers(schedule));
    F.Converges(c);
  }
}
