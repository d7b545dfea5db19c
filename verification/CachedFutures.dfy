/**
  The single-flight cache. Callers, resolvers and the sweeper interleave at every lock
  and every await; a step below is what happens between two of those points.
*/
module CachedFutures {
  import opened Options

  datatype Entry<V> = Ready(value: V) | Pending(future: nat)

  /** A resolver runs, then stores its result in the cache, then publishes it to its waiters. */
  datatype Status<V, E> = Running | Stored(result: Result<V, E>) | Done(result: Result<V, E>)

  datatype Future<K, V, E> = Future(key: K, status: Status<V, E>)

  /** Where a caller of `get_or_cache_default` is. A result remembers the future it came from, if any. */
  datatype Caller<K, V, E> =
    | Checking(key: K)
    | Missed(key: K)
    | Waiting(key: K, future: nat)
    | Returned(key: K, result: Result<V, E>, via: Option<nat>)

  datatype State<K, V, E> = State(cache: map<K, Entry<V>>, futures: seq<Future<K, V, E>>, callers: seq<Caller<K, V, E>>)

  datatype Step<!K, !V, E> =
    | Arrive(key: K)
    | ReadCheck(caller: nat)
    | WriteCheck(caller: nat)
    | Resolve(future: nat, result: Result<V, E>)
    | Publish(future: nat)
    | Wake(caller: nat)
    | Sweep(keep: V -> bool)

  predicate Enabled<K, V, E>(s: State<K, V, E>, step: Step<K, V, E>) {
    match step
    case Arrive(_) => true
    case ReadCheck(c) => c < |s.callers| && s.callers[c].Checking?
    case WriteCheck(c) => c < |s.callers| && s.callers[c].Missed?
    case Resolve(f, _) => f < |s.futures| && s.futures[f].status.Running?
    case Publish(f) => f < |s.futures| && s.futures[f].status.Stored?
    case Wake(c) =>
      c < |s.callers| && s.callers[c].Waiting? && s.callers[c].future < |s.futures| && s.futures[s.callers[c].future].status.Done?
    case Sweep(_) => true
  }

  /** What a caller does on finding an entry. */
  function Joined<K, V, E>(key: K, entry: Entry<V>): Caller<K, V, E> {
    match entry
    case Ready(v) => Returned(key, Ok(v), None)
    case Pending(f) => Waiting(key, f)
  }

  function AfterRead<K(==), V, E>(s: State<K, V, E>, c: nat): State<K, V, E>
    requires c < |s.callers|
  {
    var key := s.callers[c].key;
    s.(callers := s.callers[c := if key in s.cache then Joined(key, s.cache[key]) else Missed(key)])
  }

  function AfterWrite<K(==), V, E>(s: State<K, V, E>, c: nat): State<K, V, E>
    requires c < |s.callers|
  {
    var key := s.callers[c].key;
    if key in s.cache then s.(callers := s.callers[c := Joined(key, s.cache[key])])
    else
      var f := |s.futures|;
      State(s.cache[key := Pending(f)], s.futures + [Future(key, Running)], s.callers[c := Waiting(key, f)])
  }

  /** Stores a success and removes a failure. */
  function AfterResolve<K(==), V, E>(cache: map<K, Entry<V>>, key: K, result: Result<V, E>): map<K, Entry<V>> {
    match result
    case Ok(v) => cache[key := Ready(v)]
    case Err(_) => cache - {key}
  }

  function Swept<K, V>(cache: map<K, Entry<V>>, keep: V -> bool): map<K, Entry<V>> {
    map k | k in cache && (cache[k].Ready? ==> keep(cache[k].value)) :: cache[k]
  }

  function Next<K(==), V, E>(s: State<K, V, E>, step: Step<K, V, E>): State<K, V, E>
    requires Enabled(s, step)
  {
    match step
    case Arrive(key) => s.(callers := s.callers + [Checking(key)])
    case ReadCheck(c) => AfterRead(s, c)
    case WriteCheck(c) => AfterWrite(s, c)
    case Resolve(f, result) =>
      s.(cache := AfterResolve(s.cache, s.futures[f].key, result),
         futures := s.futures[f := s.futures[f].(status := Stored(result))])
    case Publish(f) =>
      s.(futures := s.futures[f := s.futures[f].(status := Done(s.futures[f].status.result))])
    case Wake(c) =>
      var f := s.callers[c].future;
      s.(callers := s.callers[c := Returned(s.callers[c].key, s.futures[f].status.result, Some(f))])
    case Sweep(keep) => s.(cache := Swept(s.cache, keep))
  }

  // ---------------------------------------------------------------- invariants

  /** A resolver is running exactly while the cache holds it as pending under its key. */
  ghost predicate Matched<K, V, E>(s: State<K, V, E>, f: nat)
    requires f < |s.futures|
  {
    s.futures[f].status.Running? <==> s.futures[f].key in s.cache && s.cache[s.futures[f].key] == Pending(f)
  }

  /** A resolver of this key has finished with this result. */
  ghost predicate Resolved<K, V, E>(s: State<K, V, E>, key: K, result: Result<V, E>, f: nat) {
    f < |s.futures| && s.futures[f].key == key && !s.futures[f].status.Running? && s.futures[f].status.result == result
  }

  ghost predicate EntryOk<K, V, E>(s: State<K, V, E>, key: K)
    requires key in s.cache
  {
    match s.cache[key]
    case Ready(v) => exists f :: Resolved(s, key, Ok(v), f)
    case Pending(f) => f < |s.futures| && s.futures[f].key == key
  }

  ghost predicate CallerOk<K, V, E>(s: State<K, V, E>, c: Caller<K, V, E>) {
    match c
    case Checking(_) => true
    case Missed(_) => true
    case Waiting(key, f) => f < |s.futures| && s.futures[f].key == key
    case Returned(key, result, None) => result.Ok? && exists f :: Resolved(s, key, result, f)
    case Returned(key, result, Some(f)) =>
      f < |s.futures| && s.futures[f].key == key && s.futures[f].status == Done(result)
  }

  ghost predicate Inv<K(!new), V, E>(s: State<K, V, E>) {
    && (forall f :: 0 <= f < |s.futures| ==> Matched(s, f))
    && (forall key :: key in s.cache ==> EntryOk(s, key))
    && (forall c :: 0 <= c < |s.callers| ==> CallerOk(s, s.callers[c]))
  }

  /** What is known of a finished resolver survives every step. */
  lemma ResolvedKept<K, V, E>(s: State<K, V, E>, step: Step<K, V, E>, key: K, result: Result<V, E>, f: nat)
    requires Enabled(s, step) && Resolved(s, key, result, f)
    ensures Resolved(Next(s, step), key, result, f)
  {
  }

  lemma FuturesGrow<K, V, E>(s: State<K, V, E>, step: Step<K, V, E>)
    requires Enabled(s, step)
    ensures var t := Next(s, step);
      && |s.futures| <= |t.futures|
      && (forall f :: 0 <= f < |s.futures| ==> t.futures[f].key == s.futures[f].key)
      && (forall f :: 0 <= f < |s.futures| && s.futures[f].status.Done? ==> t.futures[f] == s.futures[f])
  {
  }

  lemma CallerKept<K, V, E>(s: State<K, V, E>, step: Step<K, V, E>, c: Caller<K, V, E>)
    requires Enabled(s, step) && CallerOk(s, c)
    ensures CallerOk(Next(s, step), c)
  {
    FuturesGrow(s, step);
    if c.Returned? && c.via.None? {
      var f :| Resolved(s, c.key, c.result, f);
      ResolvedKept(s, step, c.key, c.result, f);
    }
  }

  lemma EntryKept<K, V, E>(s: State<K, V, E>, step: Step<K, V, E>, key: K)
    requires Enabled(s, step) && key in s.cache && EntryOk(s, key)
    requires key in Next(s, step).cache && Next(s, step).cache[key] == s.cache[key]
    ensures EntryOk(Next(s, step), key)
  {
    FuturesGrow(s, step);
    if s.cache[key].Ready? {
      var f :| Resolved(s, key, Ok(s.cache[key].value), f);
      ResolvedKept(s, step, key, Ok(s.cache[key].value), f);
    }
  }

  lemma EntriesKept<K(!new), V, E>(s: State<K, V, E>, step: Step<K, V, E>)
    requires Enabled(s, step) && Inv(s)
    ensures forall key :: key in Next(s, step).cache ==> EntryOk(Next(s, step), key)
  {
    var t := Next(s, step);
    forall key | key in t.cache ensures EntryOk(t, key) {
      if key in s.cache && s.cache[key] == t.cache[key] {
        EntryKept(s, step, key);
      } else if step.Resolve? {
        assert Resolved(t, key, step.result, step.future);
      }
    }
  }

  lemma MatchedKept<K(!new), V, E>(s: State<K, V, E>, step: Step<K, V, E>)
    requires Enabled(s, step) && Inv(s)
    ensures forall f :: 0 <= f < |Next(s, step).futures| ==> Matched(Next(s, step), f)
  {
    var t := Next(s, step);
    forall f | 0 <= f < |t.futures| ensures Matched(t, f) {
      if f < |s.futures| {
        assert Matched(s, f);
      }
      if step.Resolve? {
        assert Matched(s, step.future);
      }
    }
  }

  lemma NewCallerOk<K(!new), V, E>(s: State<K, V, E>, step: Step<K, V, E>, c: nat)
    requires Enabled(s, step) && Inv(s) && c < |Next(s, step).callers|
    requires c < |s.callers| ==> Next(s, step).callers[c] != s.callers[c]
    ensures CallerOk(Next(s, step), Next(s, step).callers[c])
  {
    if (step.ReadCheck? || step.WriteCheck?) && s.callers[c].key in s.cache {
      EntryKept(s, step, s.callers[c].key);
    } else if step.Wake? {
      assert CallerOk(s, s.callers[c]);
    }
  }

  lemma StepKeeps<K(!new), V, E>(s: State<K, V, E>, step: Step<K, V, E>)
    requires Enabled(s, step) && Inv(s)
    ensures Inv(Next(s, step))
  {
    var t := Next(s, step);
    MatchedKept(s, step);
    EntriesKept(s, step);
    forall c | 0 <= c < |t.callers| ensures CallerOk(t, t.callers[c]) {
      if c < |s.callers| && t.callers[c] == s.callers[c] {
        CallerKept(s, step, s.callers[c]);
      } else {
        NewCallerOk(s, step, c);
      }
    }
  }

  // ---------------------------------------------------------------- whole runs

  function Start<K, V, E>(): State<K, V, E> {
    State(map[], [], [])
  }

  ghost predicate Legal<K(!new), V(!new), E(!new)>(s: State<K, V, E>, steps: seq<Step<K, V, E>>)
    decreases |steps|, 0
  {
    steps == [] || (Legal(s, steps[..|steps| - 1]) && Enabled(Run(s, steps[..|steps| - 1]), steps[|steps| - 1]))
  }

  ghost function Run<K(!new), V(!new), E(!new)>(s: State<K, V, E>, steps: seq<Step<K, V, E>>): State<K, V, E>
    requires Legal(s, steps)
    decreases |steps|, 1
  {
    if steps == [] then s else Next(Run(s, steps[..|steps| - 1]), steps[|steps| - 1])
  }

  lemma {:induction false} RunKeeps<K(!new), V(!new), E(!new)>(s: State<K, V, E>, steps: seq<Step<K, V, E>>)
    requires Inv(s) && Legal(s, steps)
    ensures Inv(Run(s, steps))
  {
    if steps != [] {
      RunKeeps(s, steps[..|steps| - 1]);
      StepKeeps(Run(s, steps[..|steps| - 1]), steps[|steps| - 1]);
    }
  }

  /** At most one resolver of a key is running. */
  ghost predicate OneResolver<K, V, E>(s: State<K, V, E>) {
    forall f, g :: 0 <= f < g < |s.futures| && s.futures[f].status.Running? && s.futures[g].status.Running? ==>
      s.futures[f].key != s.futures[g].key
  }

  /** Single flight: in every interleaving at most one resolver of a key is running. */
  lemma SingleFlight<K(!new), V(!new), E(!new)>(s: State<K, V, E>, steps: seq<Step<K, V, E>>)
    requires Inv(s) && Legal(s, steps)
    ensures OneResolver(Run(s, steps))
  {
    RunKeeps(s, steps);
    var t := Run(s, steps);
    forall f, g | 0 <= f < g < |t.futures| && t.futures[f].status.Running? && t.futures[g].status.Running?
      ensures t.futures[f].key != t.futures[g].key
    {
      assert Matched(t, f) && Matched(t, g);
    }
  }

  /** The cache starts out in agreement, so all of this is about every run from an empty one. */
  lemma StartInv<K(!new), V(!new), E(!new)>(s: State<K, V, E>)
    requires s == Start()
    ensures Inv(s)
  {
  }

  /** Callers served by one resolver get one result, and it is that of a resolver of their own key. */
  lemma WaitersAgree<K(!new), V(!new), E(!new)>(steps: seq<Step<K, V, E>>, a: nat, b: nat)
    requires Legal(Start(), steps)
    requires a < |Run(Start(), steps).callers| && b < |Run(Start(), steps).callers|
    requires Run(Start(), steps).callers[a].Returned? && Run(Start(), steps).callers[b].Returned?
    ensures var s := Run(Start(), steps);
      && (exists f :: Resolved(s, s.callers[a].key, s.callers[a].result, f))
      && (s.callers[a].via.Some? && s.callers[a].via == s.callers[b].via ==> s.callers[a].result == s.callers[b].result)
  {
    RunKeeps(Start(), steps);
    var s := Run(Start(), steps);
    assert CallerOk(s, s.callers[a]) && CallerOk(s, s.callers[b]);
    if s.callers[a].via.Some? {
      assert Resolved(s, s.callers[a].key, s.callers[a].result, s.callers[a].via.value);
    }
  }

  /** A resolver that ends touches the cache only under its own key, where it was itself pending. */
  lemma ResolveTouchesOwnEntry<K(!new), V(!new), E(!new)>(steps: seq<Step<K, V, E>>, f: nat, result: Result<V, E>)
    requires Legal(Start(), steps) && Enabled(Run(Start(), steps), Resolve(f, result))
    ensures var s, t := Run(Start(), steps), Next(Run(Start(), steps), Resolve(f, result));
      var key := s.futures[f].key;
      && key in s.cache && s.cache[key] == Pending(f)
      && (forall k :: k != key ==> (k in t.cache <==> k in s.cache) && (k in s.cache ==> t.cache[k] == s.cache[k]))
      && (key in t.cache <==> result.Ok?)
      && (result.Ok? ==> t.cache[key] == Ready(result.value))
  {
    RunKeeps(Start(), steps);
    assert Matched(Run(Start(), steps), f);
  }

  /** Only successes are cached: a ready value is one that a resolver of that key succeeded with. */
  lemma OnlySuccessesCached<K(!new), V(!new), E(!new)>(steps: seq<Step<K, V, E>>, key: K)
    requires Legal(Start(), steps) && key in Run(Start(), steps).cache && Run(Start(), steps).cache[key].Ready?
    ensures exists f :: Resolved(Run(Start(), steps), key, Ok(Run(Start(), steps).cache[key].value), f)
  {
    RunKeeps(Start(), steps);
    assert EntryOk(Run(Start(), steps), key);
  }

  // ---------------------------------------------------------------- how often a key is resolved

  /** A caller who finds an entry gets its value or waits for its resolver, and starts none. */
  lemma FoundIsServed<K, V, E>(s: State<K, V, E>, step: Step<K, V, E>, c: nat)
    requires Enabled(s, step) && (step == ReadCheck(c) || step == WriteCheck(c)) && s.callers[c].key in s.cache
    ensures Next(s, step).cache == s.cache && Next(s, step).futures == s.futures
    ensures match s.cache[s.callers[c].key]
      case Ready(v) => Next(s, step).callers[c] == Returned(s.callers[c].key, Ok(v), None)
      case Pending(f) => Next(s, step).callers[c] == Waiting(s.callers[c].key, f)
  {
  }

  /** How many resolvers were started for a key. */
  function Started<K(==), V, E>(futures: seq<Future<K, V, E>>, key: K): nat {
    if futures == [] then 0
    else Started(futures[..|futures| - 1], key) + if futures[|futures| - 1].key == key then 1 else 0
  }

  lemma {:induction false} StartedUpdate<K, V, E>(futures: seq<Future<K, V, E>>, f: nat, status: Status<V, E>, key: K)
    requires f < |futures|
    ensures Started(futures[f := futures[f].(status := status)], key) == Started(futures, key)
  {
    var init := futures[..|futures| - 1];
    if f < |init| {
      StartedUpdate(init, f, status, key);
      assert futures[f := futures[f].(status := status)][..|init|] == init[f := init[f].(status := status)];
    } else {
      assert futures[f := futures[f].(status := status)][..|init|] == init;
    }
  }

  /** A step takes a key out of the cache: its resolver failed, or a sweep disposed of its value. */
  predicate Loses<K, V, E>(s: State<K, V, E>, step: Step<K, V, E>, key: K) {
    match step
    case Resolve(f, result) => f < |s.futures| && s.futures[f].key == key && result.Err?
    case Sweep(keep) => key in s.cache && s.cache[key].Ready? && !keep(s.cache[key].value)
    case _ => false
  }

  function Present<K, V, E>(s: State<K, V, E>, key: K): nat {
    if key in s.cache then 1 else 0
  }

  lemma StepStarts<K(!new), V, E>(s: State<K, V, E>, step: Step<K, V, E>, key: K)
    requires Enabled(s, step) && Inv(s)
    ensures Started(Next(s, step).futures, key) + Present(s, key)
         == Started(s.futures, key) + Present(Next(s, step), key) + if Loses(s, step, key) then 1 else 0
  {
    match step {
      case Resolve(f, result) =>
        assert Matched(s, f);
        StartedUpdate(s.futures, f, Stored(result), key);
      case Publish(f) => StartedUpdate(s.futures, f, Done(s.futures[f].status.result), key);
      case WriteCheck(c) => assert Next(s, step).futures[..|s.futures|] == s.futures;
      case _ =>
    }
  }

  ghost function Losses<K(!new), V(!new), E(!new)>(s: State<K, V, E>, steps: seq<Step<K, V, E>>, key: K): nat
    requires Legal(s, steps)
  {
    if steps == [] then 0
    else
      var init, last := steps[..|steps| - 1], steps[|steps| - 1];
      Losses(s, init, key) + if Loses(Run(s, init), last, key) then 1 else 0
  }

  /**
    Over every run a key is resolved once for every time it was lost, by a failure or a
    sweep, and once more if it is in the cache now: never because callers raced.
  */
  lemma {:induction false} ResolvedOncePerLoss<K(!new), V(!new), E(!new)>(start: State<K, V, E>, steps: seq<Step<K, V, E>>, key: K)
    requires start == Start() && Legal(start, steps)
    ensures Started(Run(start, steps).futures, key) == Losses(start, steps, key) + Present(Run(start, steps), key)
  {
    if steps != [] {
      var init := steps[..|steps| - 1];
      ResolvedOncePerLoss(start, init, key);
      StartInv(start);
      RunKeeps(start, init);
      StepStarts(Run(start, init), steps[|steps| - 1], key);
    }
  }

  // ---------------------------------------------------------------- dropping an entry by hand

  predicate IsPending<K, V, E>(s: State<K, V, E>, key: K) {
    key in s.cache && s.cache[key].Pending?
  }

  function Dropped<K, V, E>(s: State<K, V, E>, key: K): State<K, V, E> {
    s.(cache := s.cache - {key})
  }

  lemma DropKeeps<K(!new), V, E>(s: State<K, V, E>, key: K)
    requires Inv(s) && !IsPending(s, key)
    ensures Inv(Dropped(s, key))
  {
    var t := Dropped(s, key);
    forall f | 0 <= f < |t.futures| ensures Matched(t, f) {
      assert Matched(s, f);
    }
    forall k | k in t.cache ensures EntryOk(t, k) {
      assert EntryOk(s, k);
      if s.cache[k].Ready? {
        var f :| Resolved(s, k, Ok(s.cache[k].value), f);
        assert Resolved(t, k, Ok(s.cache[k].value), f);
      }
    }
    forall c | 0 <= c < |t.callers| ensures CallerOk(t, t.callers[c]) {
      assert CallerOk(s, s.callers[c]);
      if s.callers[c].Returned? && s.callers[c].via.None? {
        var f :| Resolved(s, s.callers[c].key, s.callers[c].result, f);
        assert Resolved(t, s.callers[c].key, s.callers[c].result, f);
      }
    }
  }

  /** One caller asks for a key and finds no entry, twice. */
  function Asks<K, V, E>(s: State<K, V, E>, key: K): seq<Step<K, V, E>> {
    [Arrive(key), ReadCheck(|s.callers|), WriteCheck(|s.callers|)]
  }

  lemma AskStarts<K(!new), V(!new), E(!new)>(s: State<K, V, E>, key: K)
    requires key !in s.cache
    ensures Legal(s, Asks(s, key))
    ensures Run(s, Asks(s, key)).futures == s.futures + [Future(key, Running)]
    ensures key in Run(s, Asks(s, key)).cache && Run(s, Asks(s, key)).cache[key] == Pending(|s.futures|)
  {
    var c := |s.callers|;
    var one: seq<Step<K, V, E>>, two: seq<Step<K, V, E>> := [Arrive(key)], [Arrive(key), ReadCheck(c)];
    assert one[..0] == [] && two[..1] == one && Asks(s, key)[..2] == two;
    assert Legal(s, one) && Run(s, one) == s.(callers := s.callers + [Checking(key)]);
    assert Legal(s, two) && Run(s, two) == s.(callers := s.callers + [Missed(key)]);
  }

  /** Dropping a pending entry lets the next caller start a second resolver beside the first. */
  lemma DropStartsSecond<K(!new), V(!new), E(!new)>(s: State<K, V, E>, key: K)
    requires Inv(s) && IsPending(s, key)
    ensures Legal(Dropped(s, key), Asks(s, key)) && !OneResolver(Run(Dropped(s, key), Asks(s, key)))
  {
    var f := s.cache[key].future;
    assert EntryOk(s, key) && Matched(s, f);
    AskStarts(Dropped(s, key), key);
    var t := Run(Dropped(s, key), Asks(s, key));
    assert t.futures[f] == s.futures[f] && t.futures[|s.futures|] == Future(key, Running);
  }

  /** Single flight survives a drop, in every continuation, if and only if the entry was not pending. */
  lemma DropBreaksPending<K(!new), V(!new), E(!new)>(s: State<K, V, E>, key: K)
    requires Inv(s)
    ensures (forall steps :: Legal(Dropped(s, key), steps) ==> OneResolver(Run(Dropped(s, key), steps)))
       <==> !IsPending(s, key)
  {
    if IsPending(s, key) {
      DropStartsSecond(s, key);
    } else {
      DropKeeps(s, key);
      forall steps | Legal(Dropped(s, key), steps) ensures OneResolver(Run(Dropped(s, key), steps)) {
        SingleFlight(Dropped(s, key), steps);
      }
    }
  }

  /** An input on which it breaks: a key asked for, dropped while it resolves, and asked for again. */
  lemma DropBreaksAtAnInput<K(!new), V(!new), E(!new)>(start: State<K, V, E>, key: K)
    requires start == Start()
    ensures Legal(start, Asks(start, key))
    ensures var s := Run(start, Asks(start, key));
      && Legal(Dropped(s, key), Asks(s, key))
      && !OneResolver(Run(Dropped(s, key), Asks(s, key)))
  {
    StartInv(start);
    AskStarts(start, key);
    RunKeeps(start, Asks(start, key));
    DropStartsSecond(Run(start, Asks(start, key)), key);
  }

  // ---------------------------------------------------------------- the cache itself

  /** The map behind the lock, the futures it has handed out, and where their callers are. */
  class Cache<K(!new, ==), V(!new), E(!new)> {
    var cache: map<K, Entry<V>>
    var futures: seq<Future<K, V, E>>
    ghost var callers: seq<Caller<K, V, E>>

    ghost function View(): State<K, V, E>
      reads this
    {
      State(cache, futures, callers)
    }

    constructor ()
      ensures View() == Start()
    {
      cache, futures, callers := map[], [], [];
    }

    /** The fast path under the read lock. */
    method Lookup(key: K, ghost c: nat) returns (r: Caller<K, V, E>)
      requires c < |callers| && callers[c] == Checking(key)
      modifies this`callers
      ensures View() == Next(old(View()), ReadCheck(c)) && r == callers[c]
    {
      if key in cache {
        match cache[key] {
          case Ready(v) => r := Returned(key, Ok(v), None);
          case Pending(f) => r := Waiting(key, f);
        }
      } else {
        r := Missed(key);
      }
      callers := callers[c := r];
    }

    /** The second check under the write lock, which starts the resolver if there is still no entry. */
    method LookupOrStart(key: K, ghost c: nat) returns (r: Caller<K, V, E>, started: bool)
      requires c < |callers| && callers[c] == Missed(key)
      modifies this
      ensures View() == Next(old(View()), WriteCheck(c)) && r == callers[c]
      ensures started <==> key !in old(cache)
    {
      started := false;
      if key in cache {
        match cache[key] {
          case Ready(v) => r := Returned(key, Ok(v), None);
          case Pending(f) => r := Waiting(key, f);
        }
      } else {
        var f := |futures|;
        futures := futures + [Future(key, Running)];
        cache := cache[key := Pending(f)];
        r, started := Waiting(key, f), true;
      }
      callers := callers[c := r];
    }

    /** What the resolver does with its result. */
    method Finish(f: nat, result: Result<V, E>)
      requires f < |futures| && futures[f].status.Running?
      modifies this`cache, this`futures
      ensures View() == Next(old(View()), Resolve(f, result))
    {
      var key := futures[f].key;
      futures := futures[f := Future(key, Stored(result))];
      match result {
        case Ok(v) => cache := cache[key := Ready(v)];
        case Err(_) => cache := cache - {key};
      }
    }

    /** Drops the ready entries that the caller does not want to keep, and counts them. */
    method RetainReady(keep: V -> bool) returns (disposed: nat)
      modifies this`cache
      ensures View() == Next(old(View()), Sweep(keep))
      ensures disposed == |old(cache)| - |cache|
      ensures forall key :: key in cache <==> key in old(cache) && (old(cache)[key].Pending? || keep(old(cache)[key].value))
      ensures forall key :: key in cache ==> cache[key] == old(cache)[key]
    {
      disposed := 0;
      var todo := cache.Keys;
      while todo != {}
        invariant todo <= cache.Keys <= old(cache).Keys
        invariant forall key :: key in cache ==> cache[key] == old(cache)[key]
        invariant forall key :: key in old(cache) && key !in todo ==>
          (key in cache <==> (old(cache)[key].Ready? ==> keep(old(cache)[key].value)))
        invariant disposed + |cache| == |old(cache)|
      {
        var key :| key in todo;
        todo := todo - {key};
        if cache[key].Ready? && !keep(cache[key].value) {
          assert (cache - {key}).Keys == cache.Keys - {key};
          cache := cache - {key};
          disposed := disposed + 1;
        }
      }
      assert cache == Swept(old(cache), keep);
    }
  }
}
