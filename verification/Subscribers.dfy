/** Any number of consumers of one watcher, who come, read and leave in any order. */
module Subscribers {
  import opened Options
  import opened WatcherFanout

  /** Every consumer is consistent with the watcher, and no two share a subscription. */
  ghost predicate AllServed<V(!new), E(!new)>(inner: WatcherInner<V, E>, consumers: seq<WatcherEvents<V, E>>)
    reads inner, consumers
  {
    && inner.Valid()
    && (forall i :: 0 <= i < |consumers| ==> consumers[i].handle == inner && consumers[i].Valid())
    && (forall i, j :: 0 <= i < j < |consumers| ==>
          consumers[i] != consumers[j] && consumers[i].subscriptionId != consumers[j].subscriptionId)
  }

  ghost function All<V(!new), E(!new)>(consumers: seq<WatcherEvents<V, E>>): set<WatcherEvents<V, E>> {
    set c | c in consumers
  }

  method Publish<V(!new), E(!new)>(inner: WatcherInner<V, E>, events: seq<E>, value: V, ghost consumers: seq<WatcherEvents<V, E>>)
    requires AllServed(inner, consumers) && value == Fold(inner.kind, events, inner.currentValue)
    modifies inner
    ensures AllServed(inner, consumers) && inner.currentValue == value
  {
    inner.UpdateSubscribers(events, value);
  }

  method Join<V(!new), E(!new)>(inner: WatcherInner<V, E>, consumers: seq<WatcherEvents<V, E>>)
      returns (c: WatcherEvents<V, E>)
    requires AllServed(inner, consumers)
    modifies inner
    ensures fresh(c) && AllServed(inner, consumers + [c]) && inner.currentValue == old(inner.currentValue)
  {
    c := new WatcherEvents(inner, inner.currentValue);
    forall i | 0 <= i < |consumers| ensures consumers[i].Valid() && consumers[i].subscriptionId != c.subscriptionId {
      assert old(consumers[i].Valid());
    }
    AlsoServed(inner, consumers, c);
  }

  lemma AlsoServed<V(!new), E(!new)>(inner: WatcherInner<V, E>, consumers: seq<WatcherEvents<V, E>>, c: WatcherEvents<V, E>)
    requires AllServed(inner, consumers) && c.handle == inner && c.Valid()
    requires forall i :: 0 <= i < |consumers| ==> consumers[i] != c && consumers[i].subscriptionId != c.subscriptionId
    ensures AllServed(inner, consumers + [c])
  {
  }

  /** One consumer reads: the oldest event it was sent, or a full sync if it was cut off and has read the rest. */
  method ReadOne<V(!new), E(!new)>(inner: WatcherInner<V, E>, consumers: seq<WatcherEvents<V, E>>, k: nat)
      returns (event: Option<E>)
    requires AllServed(inner, consumers) && k < |consumers|
    modifies inner, consumers[k]
    ensures AllServed(inner, consumers) && inner.currentValue == old(inner.currentValue)
    ensures event.None? <==> old(consumers[k].Unread()) == [] && old(consumers[k].subscriptionId in inner.watchers)
    ensures consumers[k].replica
         == if event.Some? then inner.kind.apply(event.value, old(consumers[k].replica)) else old(consumers[k].replica)
    ensures old(consumers[k].Unread()) != [] ==>
      event == Some(old(consumers[k].Unread())[0]) && consumers[k].Unread() == old(consumers[k].Unread())[1..]
    ensures old(consumers[k].Unread()) == [] ==> consumers[k].replica == inner.currentValue && consumers[k].Unread() == []
  {
    event := consumers[k].Next();
    forall i | 0 <= i < |consumers| && i != k
      ensures consumers[i].Valid() && consumers[i].subscriptionId != consumers[k].subscriptionId
    {
      assert old(consumers[i].Valid());
    }
  }

  method LeaveOne<V(!new), E(!new)>(inner: WatcherInner<V, E>, consumers: seq<WatcherEvents<V, E>>, k: nat)
      returns (rest: seq<WatcherEvents<V, E>>)
    requires AllServed(inner, consumers) && k < |consumers|
    modifies inner
    ensures rest == consumers[..k] + consumers[k + 1..]
    ensures AllServed(inner, rest) && inner.currentValue == old(inner.currentValue)
  {
    consumers[k].Drop();
    rest := consumers[..k] + consumers[k + 1..];
    forall i | 0 <= i < |consumers| && i != k ensures consumers[i].Valid() {
      assert old(consumers[i].Valid());
    }
  }

  /** A consumer that had these events to read has one fewer; one that had none holds the current value. */
  ghost predicate Advanced<V(!new), E(!new)>(inner: WatcherInner<V, E>, c: WatcherEvents<V, E>, unread: seq<E>)
    reads inner, c, c.handle
    requires c.Valid()
  {
    if unread == [] then c.Unread() == [] && c.replica == inner.currentValue else c.Unread() == unread[1..]
  }

  datatype Visit = Subscribe | Read(consumer: nat) | Leave(consumer: nat)

  /** What consumers do between two iterations; one that is not there does nothing. */
  method Attend<V(!new), E(!new)>(inner: WatcherInner<V, E>, consumers: seq<WatcherEvents<V, E>>, visit: Visit)
      returns (consumers': seq<WatcherEvents<V, E>>)
    requires AllServed(inner, consumers)
    modifies inner, All(consumers)
    ensures AllServed(inner, consumers') && inner.currentValue == old(inner.currentValue)
    ensures fresh(All(consumers') - All(consumers))
    ensures match visit
      case Subscribe => |consumers'| == |consumers| + 1 && consumers'[..|consumers|] == consumers
      case Read(_) => consumers' == consumers
      case Leave(k) => consumers' == if k < |consumers| then consumers[..k] + consumers[k + 1..] else consumers
    ensures visit.Read? && visit.consumer < |consumers| ==> Advanced(inner, consumers[visit.consumer],
      old(if visit.Read? && visit.consumer < |consumers| then consumers[visit.consumer].Unread() else []))
  {
    consumers' := consumers;
    match visit {
      case Subscribe =>
        var c := Join(inner, consumers);
        consumers' := consumers + [c];
      case Read(k) =>
        if k < |consumers| {
          var event := ReadOne(inner, consumers, k);
        }
      case Leave(k) =>
        if k < |consumers| {
          consumers' := LeaveOne(inner, consumers, k);
        }
    }
  }
}
