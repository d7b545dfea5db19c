/**
  How one watcher serves many consumers: every subscription has a bounded queue, a
  subscription whose queue overflows is cut off, and its consumer starts again from a
  full sync. The ghost history of emitted events is the reference for what each
  consumer has, is about to read, and has missed.
*/
module WatcherFanout {
  import opened Options

  /** What the fan-out needs to know of a kind of event. */
  datatype Kind<!V, !E> = Kind(apply: (E, V) -> V, fullSync: V -> E, maxBacklog: nat)

  /** A full sync gives its value to any replica. */
  ghost predicate Lawful<V(!new), E>(kind: Kind<V, E>) {
    forall v, w :: kind.apply(kind.fullSync(v), w) == v
  }

  function Fold<V, E>(kind: Kind<V, E>, es: seq<E>, v: V): V {
    if es == [] then v else kind.apply(es[|es| - 1], Fold(kind, es[..|es| - 1], v))
  }

  /** What a queue that takes no more than `cap` events has of `q` and then `es`. */
  function Kept<E>(cap: nat, q: seq<E>, es: seq<E>): seq<E>
    requires |q| <= cap
  {
    if |q| + |es| <= cap then q + es else q + es[..cap - |q|]
  }

  /** A queue was offered some events: it has what it had room for, and is live if it had room for all. */
  ghost predicate Sent<E>(cap: nat, q: seq<E>, live: bool, es: seq<E>, q': seq<E>, live': bool)
    requires |q| <= cap
  {
    && live' == (live && |q| + |es| <= cap)
    && q' == if live then Kept(cap, q, es) else q
  }

  lemma SentOneMore<E>(cap: nat, q: seq<E>, live: bool, es: seq<E>, e: E, q1: seq<E>, live1: bool, q2: seq<E>, live2: bool)
    requires |q| <= cap && Sent(cap, q, live, es, q1, live1) && |q1| <= cap
    requires live2 == (live1 && |q1| < cap) && q2 == if live2 then q1 + [e] else q1
    ensures Sent(cap, q, live, es + [e], q2, live2)
  {
  }

  /** The values a replica goes through: one more than there are events. */
  ghost predicate History<V, E>(kind: Kind<V, E>, emitted: seq<E>, values: seq<V>) {
    && |values| == |emitted| + 1
    && forall i :: 0 <= i < |emitted| ==> values[i + 1] == kind.apply(emitted[i], values[i])
  }

  lemma {:induction false} HistoryFold<V, E>(kind: Kind<V, E>, emitted: seq<E>, values: seq<V>, lo: nat, hi: nat)
    requires History(kind, emitted, values) && lo <= hi <= |emitted|
    ensures Fold(kind, emitted[lo..hi], values[lo]) == values[hi]
    decreases hi
  {
    if lo < hi {
      HistoryFold(kind, emitted, values, lo, hi - 1);
      assert emitted[lo..hi][..hi - lo - 1] == emitted[lo..hi - 1];
    }
  }

  /** From an earlier history these events were emitted. */
  ghost predicate Progressed<V, E>(kind: Kind<V, E>, emitted: seq<E>, values: seq<V>, es: seq<E>, emitted': seq<E>, values': seq<V>) {
    && |values| == |emitted| + 1 && |values'| == |emitted'| + 1
    && emitted' == emitted + es
    && values <= values'
    && values'[|emitted'|] == Fold(kind, es, values[|emitted|])
  }

  lemma ProgressedOne<V, E>(kind: Kind<V, E>, emitted: seq<E>, values: seq<V>, es: seq<E>, emitted': seq<E>, values': seq<V>, e: E)
    requires Progressed(kind, emitted, values, es, emitted', values')
    ensures Progressed(kind, emitted, values, es + [e], emitted' + [e], values' + [kind.apply(e, values'[|emitted'|])])
  {
    assert (es + [e])[..|es|] == es;
    assert emitted + (es + [e]) == emitted' + [e];
  }

  /** A subscription's queue is the stretch of the history from the first event not read. */
  ghost predicate Placed<E>(emitted: seq<E>, cap: nat, q: seq<E>, read: nat, live: bool) {
    && read + |q| <= |emitted|
    && q == emitted[read..read + |q|]
    && |q| <= cap
    && (live ==> read + |q| == |emitted|)
  }

  lemma PlacedAfter<E>(emitted: seq<E>, cap: nat, q: seq<E>, read: nat, live: bool, e: E)
    requires Placed(emitted, cap, q, read, live)
    ensures live && |q| < cap ==> Placed(emitted + [e], cap, q + [e], read, true)
    ensures Placed(emitted + [e], cap, q, read, false)
  {
  }

  class WatcherInner<V(!new), E(!new)> {
    const kind: Kind<V, E>
    var currentValue: V
    var nextSubscriptionId: nat
    // the subscriptions that still have a sender, and the queue of every receiver
    var watchers: set<nat>
    var channels: map<nat, seq<E>>

    ghost var emitted: seq<E>
    ghost var values: seq<V>
    ghost var read: map<nat, nat>

    ghost predicate Core()
      reads this
    {
      && Lawful(kind)
      && History(kind, emitted, values)
      && read.Keys == channels.Keys
      && watchers <= channels.Keys
      && (forall id :: id in channels ==> id < nextSubscriptionId)
      && (forall id :: id in channels ==> Placed(emitted, kind.maxBacklog, channels[id], read[id], id in watchers))
    }

    ghost predicate Valid()
      reads this
    {
      Core() && currentValue == values[|emitted|]
    }

    constructor (kind: Kind<V, E>, initial: V)
      requires Lawful(kind)
      ensures Valid() && this.kind == kind && currentValue == initial && channels == map[] && emitted == []
    {
      this.kind, currentValue, nextSubscriptionId := kind, initial, 0;
      watchers, channels := {}, map[];
      emitted, values, read := [], [initial], map[];
    }

    method CreateSubscription() returns (id: nat, fullSyncEvent: E)
      requires Valid()
      modifies this`nextSubscriptionId, this`watchers, this`channels, this`read
      ensures Valid() && id == old(nextSubscriptionId) && id !in old(channels)
      ensures watchers == old(watchers) + {id} && channels == old(channels)[id := []]
      ensures read == old(read)[id := |emitted|] && fullSyncEvent == kind.fullSync(currentValue)
    {
      id := nextSubscriptionId;
      nextSubscriptionId := nextSubscriptionId + 1;
      watchers, channels := watchers + {id}, channels[id := []];
      read := read[id := |emitted|];
      fullSyncEvent := kind.fullSync(currentValue);
    }

    /** Drops a subscription's sender and receiver. */
    method RemoveSubscription(id: nat)
      requires Valid()
      modifies this`watchers, this`channels, this`read
      ensures Valid() && watchers == old(watchers) - {id}
      ensures channels == old(channels) - {id} && read == old(read) - {id}
    {
      watchers, channels := watchers - {id}, channels - {id};
      read := read - {id};
    }

    method RecreateSubscription(id: nat) returns (newId: nat, fullSyncEvent: E)
      requires Valid()
      modifies this`nextSubscriptionId, this`watchers, this`channels, this`read
      ensures Valid() && newId == old(nextSubscriptionId) && newId !in old(channels)
      ensures watchers == old(watchers) - {id} + {newId} && channels == (old(channels) - {id})[newId := []]
      ensures read == (old(read) - {id})[newId := |emitted|] && fullSyncEvent == kind.fullSync(currentValue)
    {
      RemoveSubscription(id);
      newId, fullSyncEvent := CreateSubscription();
    }

    /** Offers one event to every sender, in any order, keeping those whose queue takes it. */
    method TrySendAll(e: E)
      requires forall id :: id in watchers ==> id in channels
      modifies this`watchers, this`channels
      ensures channels.Keys == old(channels).Keys
      ensures forall id :: id in old(channels) ==>
        && (id in watchers <==> id in old(watchers) && |old(channels)[id]| < kind.maxBacklog)
        && channels[id] == if id in watchers then old(channels)[id] + [e] else old(channels)[id]
      ensures watchers <= old(watchers)
    {
      var todo := watchers;
      while todo != {}
        invariant todo <= watchers <= old(watchers) && channels.Keys == old(channels).Keys
        invariant forall id :: id in todo ==> channels[id] == old(channels)[id]
        invariant forall id :: id in old(channels) && id !in todo ==>
          && (id in watchers <==> id in old(watchers) && |old(channels)[id]| < kind.maxBacklog)
          && channels[id] == if id in watchers then old(channels)[id] + [e] else old(channels)[id]
      {
        var id :| id in todo;
        todo := todo - {id};
        if |channels[id]| < kind.maxBacklog {
          channels := channels[id := channels[id] + [e]];
        } else {
          watchers := watchers - {id};
        }
      }
    }

    ghost method Record(e: E)
      requires History(kind, emitted, values)
      modifies this`emitted, this`values
      ensures emitted == old(emitted) + [e]
      ensures values == old(values) + [kind.apply(e, old(values)[|old(emitted)|])]
      ensures History(kind, emitted, values)
    {
      values := values + [kind.apply(e, values[|emitted|])];
      emitted := emitted + [e];
    }

    /** One round of the dispatch. */
    method Dispatch(e: E)
      requires Core()
      modifies this`watchers, this`channels, this`emitted, this`values
      ensures Core() && channels.Keys == old(channels).Keys
      ensures emitted == old(emitted) + [e]
      ensures values == old(values) + [kind.apply(e, old(values)[|old(emitted)|])]
      ensures forall id :: id in old(channels) ==>
        && (id in watchers <==> id in old(watchers) && |old(channels)[id]| < kind.maxBacklog)
        && channels[id] == if id in watchers then old(channels)[id] + [e] else old(channels)[id]
    {
      TrySendAll(e);
      Record(e);
      forall id | id in channels
        ensures Placed(emitted, kind.maxBacklog, channels[id], read[id], id in watchers)
      {
        PlacedAfter(old(emitted), kind.maxBacklog, old(channels)[id], read[id], id in old(watchers), e);
      }
    }

    ghost predicate Bounded(cs: map<nat, seq<E>>) {
      forall id :: id in cs ==> |cs[id]| <= kind.maxBacklog
    }

    /** Every queue was offered these events. */
    ghost predicate AllSent(cs: map<nat, seq<E>>, ws: set<nat>, es: seq<E>)
      reads this`channels, this`watchers
      requires Bounded(cs)
    {
      && channels.Keys == cs.Keys
      && forall id :: id in cs ==> Sent(kind.maxBacklog, cs[id], id in ws, es, channels[id], id in watchers)
    }

    /** One more event for queues that were offered `sent` so far. */
    method DispatchNext(ghost cs: map<nat, seq<E>>, ghost ws: set<nat>, ghost sent: seq<E>, e: E)
      requires Core() && Bounded(cs) && AllSent(cs, ws, sent)
      modifies this`watchers, this`channels, this`emitted, this`values
      ensures Core() && AllSent(cs, ws, sent + [e])
      ensures emitted == old(emitted) + [e]
      ensures values == old(values) + [kind.apply(e, old(values)[|old(emitted)|])]
    {
      Dispatch(e);
      forall id | id in cs
        ensures Sent(kind.maxBacklog, cs[id], id in ws, sent + [e], channels[id], id in watchers)
      {
        SentOneMore(kind.maxBacklog, cs[id], id in ws, sent, e,
                    old(channels)[id], id in old(watchers), channels[id], id in watchers);
      }
    }

    method DispatchAll(events: seq<E>)
      requires Core() && Bounded(channels)
      modifies this`watchers, this`channels, this`emitted, this`values
      ensures Core() && AllSent(old(channels), old(watchers), events)
      ensures Progressed(kind, old(emitted), old(values), events, emitted, values)
    {
      for i := 0 to |events|
        invariant Core() && AllSent(old(channels), old(watchers), events[..i])
        invariant Progressed(kind, old(emitted), old(values), events[..i], emitted, values)
      {
        ProgressedOne(kind, old(emitted), old(values), events[..i], emitted, values, events[i]);
        DispatchNext(old(channels), old(watchers), events[..i], events[i]);
        assert events[..i + 1] == events[..i] + [events[i]];
      }
      assert events[..|events|] == events;
    }

    /**
      Publishes a new value: every live queue gets the events it has room for, and stays
      live exactly when it has room for all of them.
    */
    method UpdateSubscribers(events: seq<E>, value: V)
      requires Valid() && value == Fold(kind, events, currentValue)
      modifies this`currentValue, this`watchers, this`channels, this`emitted, this`values
      ensures Valid() && currentValue == value && Bounded(old(channels))
      ensures AllSent(old(channels), old(watchers), events)
      ensures emitted == old(emitted) + events && old(values) <= values
    {
      currentValue := value;
      if watchers == {} || events == [] {
        Unheard(events);
        return;
      }
      DispatchAll(events);
    }

    /** Events that find no sender, or none at all, are history all the same. */
    ghost method Unheard(events: seq<E>)
      requires Core() && (watchers == {} || events == [])
      modifies this`emitted, this`values
      ensures Core() && Progressed(kind, old(emitted), old(values), events, emitted, values)
    {
      for i := 0 to |events|
        invariant Core() && Progressed(kind, old(emitted), old(values), events[..i], emitted, values)
      {
        label before:
        ProgressedOne(kind, old(emitted), old(values), events[..i], emitted, values, events[i]);
        Record(events[i]);
        assert events[..i + 1] == events[..i] + [events[i]];
        forall id | id in channels
          ensures Placed(emitted, kind.maxBacklog, channels[id], read[id], id in watchers)
        {
          PlacedAfter(old@before(emitted), kind.maxBacklog, channels[id], read[id], id in watchers, events[i]);
        }
      }
      assert events[..|events|] == events;
    }

    /** Takes the oldest event of a queue. */
    method Pop(id: nat) returns (e: E)
      requires Valid() && id in channels && channels[id] != []
      modifies this`channels, this`read
      ensures Valid() && e == old(channels)[id][0] && e == emitted[old(read)[id]]
      ensures channels == old(channels)[id := old(channels)[id][1..]]
      ensures read == old(read)[id := old(read)[id] + 1]
    {
      e := channels[id][0];
      assert Placed(emitted, kind.maxBacklog, channels[id], read[id], id in watchers);
      channels := channels[id := channels[id][1..]];
      read := read[id := read[id] + 1];
    }
  }

  class WatcherEvents<V(!new), E(!new)> {
    const handle: WatcherInner<V, E>
    var subscriptionId: nat
    var initialEvent: Option<E>
    // what the consumer holds after applying every event it was given
    ghost var replica: V

    ghost predicate Valid()
      reads this, handle
    {
      && handle.Valid()
      && subscriptionId in handle.channels
      && match initialEvent
         case Some(e) => e == handle.kind.fullSync(handle.values[handle.read[subscriptionId]])
         case None => replica == handle.values[handle.read[subscriptionId]]
    }

    /** The events the consumer will still be given from this subscription. */
    ghost function Unread(): seq<E>
      reads this, handle
      requires Valid()
    {
      (if initialEvent.Some? then [initialEvent.value] else []) + handle.channels[subscriptionId]
    }

    constructor (handle: WatcherInner<V, E>, ghost start: V)
      requires handle.Valid()
      modifies handle
      ensures this.handle == handle && Valid() && replica == start
      ensures subscriptionId == old(handle.nextSubscriptionId) && subscriptionId !in old(handle.channels)
      ensures subscriptionId in handle.watchers && initialEvent == Some(handle.kind.fullSync(handle.currentValue))
      ensures OthersKept(subscriptionId, old(handle.channels), handle.channels, old(handle.read), handle.read,
                         old(handle.watchers), handle.watchers)
      ensures handle.currentValue == old(handle.currentValue)
      ensures handle.emitted == old(handle.emitted) && handle.values == old(handle.values)
    {
      this.handle := handle;
      var id, e := handle.CreateSubscription();
      subscriptionId := id;
      initialEvent := Some(e);
      replica := start;
    }

    /**
      The next event, or nothing when the consumer has to wait. A consumer that was cut
      off first reads what its queue still holds and is then synced to the current value.
    */
    method Next() returns (event: Option<E>)
      requires Valid()
      modifies this, handle
      ensures Valid() && handle.currentValue == old(handle.currentValue)
      ensures handle.emitted == old(handle.emitted) && handle.values == old(handle.values)
      ensures subscriptionId == old(subscriptionId) || subscriptionId == old(handle.nextSubscriptionId)
      ensures event.None? <==> old(Unread()) == [] && old(subscriptionId in handle.watchers)
      ensures event.None? ==> replica == old(replica) == handle.currentValue && Unread() == []
      ensures event.Some? ==> replica == handle.kind.apply(event.value, old(replica))
      ensures old(Unread()) != [] ==> event == Some(old(Unread())[0]) && Unread() == old(Unread())[1..] && subscriptionId == old(subscriptionId)
      ensures old(Unread()) == [] && old(subscriptionId !in handle.watchers) ==>
        event == Some(handle.kind.fullSync(handle.currentValue)) && replica == handle.currentValue
        && subscriptionId in handle.watchers && Unread() == [] && subscriptionId == old(handle.nextSubscriptionId)
      ensures OthersKept(old(subscriptionId), old(handle.channels), handle.channels, old(handle.read), handle.read,
                         old(handle.watchers), handle.watchers)
    {
      if initialEvent.Some? {
        event := initialEvent;
        initialEvent := None;
        replica := handle.kind.apply(event.value, replica);
      } else if handle.channels[subscriptionId] != [] {
        var e := handle.Pop(subscriptionId);
        event := Some(e);
        replica := handle.kind.apply(e, replica);
      } else if subscriptionId in handle.watchers {
        event := None;
      } else {
        var id, e := handle.RecreateSubscription(subscriptionId);
        subscriptionId := id;
        event := Some(e);
        replica := handle.kind.apply(e, replica);
      }
    }

    /** Ends the subscription. */
    method Drop()
      requires Valid()
      modifies handle
      ensures handle.Valid() && handle.currentValue == old(handle.currentValue) && handle.values == old(handle.values)
      ensures subscriptionId !in handle.channels
      ensures OthersKept(subscriptionId, old(handle.channels), handle.channels, old(handle.read), handle.read,
                         old(handle.watchers), handle.watchers)
    {
      handle.RemoveSubscription(subscriptionId);
    }
  }

  /** Nothing about the other existing subscriptions changed. */
  ghost predicate OthersKept<E>(id: nat, channels: map<nat, seq<E>>, channels': map<nat, seq<E>>,
                                read: map<nat, nat>, read': map<nat, nat>, watchers: set<nat>, watchers': set<nat>)
  {
    forall i :: i in channels && i in read && i != id ==>
      i in channels' && i in read' && channels'[i] == channels[i] && read'[i] == read[i] && (i in watchers' <==> i in watchers)
  }

  /**
    Convergence: a live consumer that reads everything it has been sent holds the current
    value. One that was cut off holds the value the watcher had when it was cut off.
  */
  lemma Converges<V(!new), E(!new)>(c: WatcherEvents<V, E>)
    requires c.Valid()
    ensures c.subscriptionId in c.handle.watchers ==>
      Fold(c.handle.kind, c.Unread(), c.replica) == c.handle.currentValue
    ensures var from := c.handle.read[c.subscriptionId]; var q := c.handle.channels[c.subscriptionId];
      && from + |q| <= |c.handle.emitted|
      && q == c.handle.emitted[from..from + |q|]
      && Fold(c.handle.kind, c.Unread(), c.replica) == c.handle.values[from + |q|]
  {
    var h := c.handle;
    var from, q := h.read[c.subscriptionId], h.channels[c.subscriptionId];
    assert Placed(h.emitted, h.kind.maxBacklog, q, from, c.subscriptionId in h.watchers);
    HistoryFold(h.kind, h.emitted, h.values, from, from + |q|);
    if c.initialEvent.Some? {
      FoldFirst(h.kind, c.initialEvent.value, q, c.replica);
      assert c.Unread() == [c.initialEvent.value] + q;
    } else {
      assert c.Unread() == q;
    }
  }

  lemma {:induction false} FoldFirst<V, E>(kind: Kind<V, E>, e: E, q: seq<E>, v: V)
    ensures Fold(kind, [e] + q, v) == Fold(kind, q, kind.apply(e, v))
  {
    if q == [] {
      assert [e] + q == [e];
      assert [e][..0] == [];
    } else {
      assert ([e] + q)[..|q|] == [e] + q[..|q| - 1];
      FoldFirst(kind, e, q[..|q| - 1], v);
    }
  }
}
