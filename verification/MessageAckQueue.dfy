/**
  The ack queue as the source keeps it: a mapping of ids, a delay queue of lease
  timers that refer to each other through keys, and chunks, all updated in place.
*/
module MessageAckQueue {
  import opened Options
  import opened PullTypes
  import opened Counting
  import A = PullAcks

  /** delayKey identifies the lease timer in the delay queue. */
  datatype Item = Item(serverId: ServerId, delayKey: nat, enqueuedAt: nat)

  datatype Delay = Delay(ackId: AckId, deadline: nat)

  type Mapping = map<AckId, Item>

  type DelayQueue = map<nat, Delay>

  /** Mapped ids and lease timers are in bijection. */
  ghost predicate Paired(mapping: Mapping, delays: DelayQueue) {
    && (forall id :: id in mapping ==> mapping[id].delayKey in delays && delays[mapping[id].delayKey].ackId == id)
    && (forall key :: key in delays ==> delays[key].ackId in mapping && mapping[delays[key].ackId].delayKey == key)
  }

  function LeaseOf(item: Item, delays: DelayQueue): A.Lease {
    A.Lease(item.serverId, item.enqueuedAt, if item.delayKey in delays then delays[item.delayKey].deadline else 0)
  }

  /** What the two structures say together: each mapped id with its renewal time. */
  function Leases(mapping: Mapping, delays: DelayQueue): map<AckId, A.Lease> {
    map id | id in mapping :: LeaseOf(mapping[id], delays)
  }

  lemma PairedStore(mapping: Mapping, delays: DelayQueue, id: AckId, item: Item, deadline: nat)
    requires Paired(mapping, delays) && id !in mapping && item.delayKey !in delays
    ensures var mapping', delays' := mapping[id := item], delays[item.delayKey := Delay(id, deadline)];
      && Paired(mapping', delays')
      && Leases(mapping', delays') == Leases(mapping, delays)[id := A.Lease(item.serverId, item.enqueuedAt, deadline)]
  {
  }

  /** Removing an id removes its own timer and no other: the key it kept was never stale. */
  lemma PairedRemove(mapping: Mapping, delays: DelayQueue, id: AckId)
    requires Paired(mapping, delays) && id in mapping
    ensures mapping[id].delayKey in delays
    ensures var mapping', delays' := mapping - {id}, delays - {mapping[id].delayKey};
      Paired(mapping', delays') && Leases(mapping', delays') == Leases(mapping, delays) - {id}
  {
  }

  /** Replacing an expired timer by a new one under any free key keeps the pairing. */
  lemma PairedRenew(mapping: Mapping, delays: DelayQueue, oldKey: nat, key: nat, deadline: nat)
    requires Paired(mapping, delays) && oldKey in delays && key !in delays - {oldKey}
    ensures
      var id := delays[oldKey].ackId;
      var mapping' := mapping[id := mapping[id].(delayKey := key)];
      var delays' := (delays - {oldKey})[key := Delay(id, deadline)];
      && Paired(mapping', delays')
      && Leases(mapping', delays')
         == Leases(mapping, delays)[id := Leases(mapping, delays)[id].(renewAt := deadline)]
  {
  }

  /** The ids whose lease is due for renewal. */
  function Expired(mapped: map<AckId, A.Lease>, now: nat): set<AckId> {
    set id | id in mapped && mapped[id].renewAt <= now
  }

  lemma RenewOne(q: A.AckQueue, id: AckId, deadline: nat)
    requires id in q.mapped
    ensures A.Renew(q, map[id := deadline])
         == q.(mapped := q.mapped[id := q.mapped[id].(renewAt := deadline)])
  {
    assert A.Renew(q, map[id := deadline]).mapped == q.mapped[id := q.mapped[id].(renewAt := deadline)];
  }

  lemma RenewNone(q: A.AckQueue)
    ensures A.Renew(q, map[]) == q
  {
    assert A.Renew(q, map[]).mapped == q.mapped;
  }

  /** Two passes over different ids amount to one. */
  lemma RenewTwice(q: A.AckQueue, first: map<AckId, nat>, second: map<AckId, nat>)
    ensures A.Renew(A.Renew(q, first), second) == A.Renew(q, first + second)
  {
    assert A.Renew(A.Renew(q, first), second).mapped == A.Renew(q, first + second).mapped;
  }

  /** A key that no timer uses. Which one is up to the delay queue: keys of removed timers come back. */
  method FreshKey(delays: DelayQueue) returns (key: nat)
    ensures key !in delays
  {
    key := 0;
    var left := delays.Keys;
    while left != {}
      invariant left <= delays.Keys
      invariant forall k :: k in delays && k !in left ==> k < key
      decreases left
    {
      var k :| k in left;
      left := left - {k};
      if k >= key {
        key := k + 1;
      }
    }
  }

  function Elapsed(now: nat, since: nat): nat {
    if since <= now then now - since else 0
  }

  /**
    `renewed` are different ids that were due at `now`; each got a new time between half
    of maxDelay and maxDelay from now, and was reported with its Pub/Sub id and its age.
  */
  ghost predicate Renewal(before: map<AckId, A.Lease>, now: nat, maxDelay: nat,
                          renewed: seq<AckId>, deadlines: map<AckId, nat>, result: seq<(nat, ServerId)>) {
    && |result| == |renewed|
    && Distinct(renewed)
    && (forall id :: id in deadlines <==> id in renewed)
    && (forall i :: 0 <= i < |renewed| ==>
          && renewed[i] in Expired(before, now)
          && now + maxDelay / 2 <= deadlines[renewed[i]] < now + maxDelay
          && result[i] == (Elapsed(now, before[renewed[i]].enqueuedAt), before[renewed[i]].serverId))
  }

  /** An id that is still due during a pass was not renewed in it, and renewing it extends the pass. */
  lemma RenewalExtend(q: A.AckQueue, now: nat, maxDelay: nat,
                      renewed: seq<AckId>, deadlines: map<AckId, nat>, result: seq<(nat, ServerId)>,
                      id: AckId, deadline: nat)
    requires Renewal(q.mapped, now, maxDelay, renewed, deadlines, result) && maxDelay >= 2
    requires id in Expired(A.Renew(q, deadlines).mapped, now) && now + maxDelay / 2 <= deadline < now + maxDelay
    ensures var lease := A.Renew(q, deadlines).mapped[id];
      Renewal(q.mapped, now, maxDelay, renewed + [id], deadlines + map[id := deadline],
              result + [(Elapsed(now, lease.enqueuedAt), lease.serverId)])
    ensures A.Renew(A.Renew(q, deadlines), map[id := deadline]) == A.Renew(q, deadlines + map[id := deadline])
  {
    assert id !in renewed;
    RenewTwice(q, deadlines, map[id := deadline]);
  }

  lemma NoneExpired(mapping: Mapping, delays: DelayQueue, now: nat)
    requires Paired(mapping, delays) && forall key :: key in delays ==> delays[key].deadline > now
    ensures Expired(Leases(mapping, delays), now) == {}
  {
  }

  function NamesOf(mapped: map<AckId, A.Lease>, ids: seq<AckId>): seq<ServerId> {
    seq(|ids|, i requires 0 <= i < |ids| => if ids[i] in mapped then mapped[ids[i]].serverId else "")
  }

  function ResultIds(result: seq<(nat, ServerId)>): seq<ServerId> {
    seq(|result|, i requires 0 <= i < |result| => result[i].1)
  }

  /** A pass renewed different ids that were due, and moved each one into the future. */
  ghost predicate Pass(before: map<AckId, A.Lease>, now: nat, renewed: seq<AckId>, deadlines: map<AckId, nat>) {
    && Distinct(renewed)
    && (forall id :: id in deadlines <==> id in renewed)
    && (forall id :: id in deadlines ==> id in Expired(before, now) && deadlines[id] > now)
  }

  lemma RenewalIsPass(before: map<AckId, A.Lease>, now: nat, maxDelay: nat,
                      renewed: seq<AckId>, deadlines: map<AckId, nat>, result: seq<(nat, ServerId)>)
    requires Renewal(before, now, maxDelay, renewed, deadlines, result) && maxDelay >= 2
    ensures Pass(before, now, renewed, deadlines)
    ensures ResultIds(result) == NamesOf(before, renewed)
  {
  }

  lemma RenewalTimes(before: map<AckId, A.Lease>, now: nat, maxDelay: nat,
                     renewed: seq<AckId>, deadlines: map<AckId, nat>, result: seq<(nat, ServerId)>, id: AckId)
    requires Renewal(before, now, maxDelay, renewed, deadlines, result) && id in deadlines
    ensures now + maxDelay / 2 <= deadlines[id] < now + maxDelay
  {
    var i :| 0 <= i < |renewed| && renewed[i] == id;
  }

  lemma ExpiredAfter(q: A.AckQueue, now: nat, renewed: seq<AckId>, deadlines: map<AckId, nat>)
    requires Pass(q.mapped, now, renewed, deadlines)
    ensures Expired(A.Renew(q, deadlines).mapped, now) == Expired(q.mapped, now) - deadlines.Keys
  {
  }

  /** A pass after which nothing is due renewed exactly what was due before. */
  lemma PassComplete(q: A.AckQueue, now: nat, renewed: seq<AckId>, deadlines: map<AckId, nat>)
    requires Pass(q.mapped, now, renewed, deadlines) && Expired(A.Renew(q, deadlines).mapped, now) == {}
    ensures deadlines.Keys == Expired(q.mapped, now)
  {
    ExpiredAfter(q, now, renewed, deadlines);
    forall id | id in Expired(q.mapped, now) ensures id in deadlines {
      assert id !in Expired(q.mapped, now) - deadlines.Keys;
    }
  }

  /** One pass after another is a pass: no id is renewed twice. */
  lemma PassExtend(q: A.AckQueue, now: nat, renewed: seq<AckId>, deadlines: map<AckId, nat>,
                   more: seq<AckId>, later: map<AckId, nat>)
    requires Pass(q.mapped, now, renewed, deadlines)
    requires Pass(A.Renew(q, deadlines).mapped, now, more, later)
    ensures Pass(q.mapped, now, renewed + more, deadlines + later)
    ensures A.Renew(A.Renew(q, deadlines), later) == A.Renew(q, deadlines + later)
    ensures NamesOf(q.mapped, renewed + more)
         == NamesOf(q.mapped, renewed) + NamesOf(A.Renew(q, deadlines).mapped, more)
  {
    RenewTwice(q, deadlines, later);
    NamesExtend(q, deadlines, renewed, more);
    PassExtendIds(q, now, renewed, deadlines, more, later);
  }

  lemma NamesExtend(q: A.AckQueue, deadlines: map<AckId, nat>, renewed: seq<AckId>, more: seq<AckId>)
    ensures NamesOf(q.mapped, renewed + more)
         == NamesOf(q.mapped, renewed) + NamesOf(A.Renew(q, deadlines).mapped, more)
  {
  }

  lemma PassExtendIds(q: A.AckQueue, now: nat, renewed: seq<AckId>, deadlines: map<AckId, nat>,
                      more: seq<AckId>, later: map<AckId, nat>)
    requires Pass(q.mapped, now, renewed, deadlines)
    requires Pass(A.Renew(q, deadlines).mapped, now, more, later)
    ensures Pass(q.mapped, now, renewed + more, deadlines + later)
  {
    ExpiredAfter(q, now, renewed, deadlines);
    forall i | 0 <= i < |more| ensures more[i] !in renewed && more[i] in Expired(q.mapped, now) {
      assert more[i] in later;
    }
    var all := renewed + more;
    forall i, j | 0 <= i < j < |all| ensures all[i] != all[j] {
      assert i < |renewed| ==> all[i] in renewed;
    }
  }

  class MessageAckQueue {
    const maxChunkSize: nat
    /** How long, in milliseconds, a verdict may wait for its chunk to fill. */
    const pendingAckFlushInterval: nat
    var nextFlush: nat
    var currentChunk: A.Chunk
    var fullChunks: seq<A.Chunk>
    var ackIdMapping: Mapping
    var lastAckId: AckId
    var leaseRenewalDelayQueue: DelayQueue

    ghost function View(): A.AckQueue
      reads this
    {
      A.AckQueue(maxChunkSize, lastAckId, Leases(ackIdMapping, leaseRenewalDelayQueue), currentChunk, fullChunks)
    }

    ghost predicate Valid()
      reads this
    {
      && Paired(ackIdMapping, leaseRenewalDelayQueue)
      && (forall id :: id in ackIdMapping ==> id <= lastAckId)
      && A.ChunksOk(View())
    }

    constructor (maxChunkSize: nat, pendingAckFlushInterval: nat, now: nat)
      requires maxChunkSize > 0
      ensures Valid() && this.maxChunkSize == maxChunkSize && this.pendingAckFlushInterval == pendingAckFlushInterval
      ensures View() == A.AckQueue(maxChunkSize, 0, map[], [], []) && nextFlush == now + pendingAckFlushInterval
    {
      this.maxChunkSize, this.pendingAckFlushInterval := maxChunkSize, pendingAckFlushInterval;
      nextFlush := now + pendingAckFlushInterval;
      currentChunk, fullChunks, ackIdMapping, lastAckId, leaseRenewalDelayQueue := [], [], map[], 0, map[];
    }

    method Len() returns (n: nat)
      requires Valid()
      ensures n == |A.Waiting(View())|
    {
      A.WaitingLength(View());
      n := |currentChunk| + |fullChunks| * maxChunkSize;
    }

    method TransformAndStoreAckId(ackIdFromServer: ServerId, receivedAt: nat, leaseRenewAt: nat) returns (id: AckId)
      requires Valid()
      modifies this`lastAckId, this`ackIdMapping, this`leaseRenewalDelayQueue
      ensures Valid() && View() == A.Store(old(View()), ackIdFromServer, receivedAt, leaseRenewAt)
      ensures id == old(lastAckId) + 1
    {
      id := lastAckId + 1;
      lastAckId := id;
      var key := FreshKey(leaseRenewalDelayQueue);
      PairedStore(ackIdMapping, leaseRenewalDelayQueue, id, Item(ackIdFromServer, key, receivedAt), leaseRenewAt);
      leaseRenewalDelayQueue := leaseRenewalDelayQueue[key := Delay(id, leaseRenewAt)];
      ackIdMapping := ackIdMapping[id := Item(ackIdFromServer, key, receivedAt)];
    }

    method RemoveAckId(ackId: AckId) returns (ackIdFromServer: Option<ServerId>)
      requires Valid()
      modifies this`ackIdMapping, this`leaseRenewalDelayQueue
      ensures Valid()
      ensures View() == old(View()).(mapped := old(View()).mapped - {ackId})
      ensures ackIdFromServer.Some? <==> ackId in old(View()).mapped
      ensures ackIdFromServer.Some? ==> ackIdFromServer.value == old(View()).mapped[ackId].serverId
    {
      if ackId !in ackIdMapping {
        assert View().mapped - {ackId} == View().mapped;
        return None;
      }
      var item := ackIdMapping[ackId];
      PairedRemove(ackIdMapping, leaseRenewalDelayQueue, ackId);
      ackIdMapping := ackIdMapping - {ackId};
      leaseRenewalDelayQueue := leaseRenewalDelayQueue - {item.delayKey};
      ackIdFromServer := Some(item.serverId);
    }

    /** The first verdict to wait sets the time by which its chunk is flushed; later ones do not put it off. */
    method EnqueueAckOrNack(ackOrNack: AckOrNack<AckId>, now: nat)
      requires Valid()
      modifies this
      ensures Valid() && View() == A.Enqueue(old(View()), ackOrNack)
      ensures nextFlush == if ackOrNack.id in old(View()).mapped && A.NothingQueued(old(View()))
                           then now + pendingAckFlushInterval else old(nextFlush)
    {
      var serverId := RemoveAckId(ackOrNack.id);
      if serverId.Some? {
        PushVerdict(A.Retag(ackOrNack, serverId.value), now);
      } else {
        assert View().mapped - {ackOrNack.id} == View().mapped;
      }
    }

    method PushVerdict(verdict: AckOrNack<ServerId>, now: nat)
      requires Valid()
      modifies this`currentChunk, this`fullChunks, this`nextFlush
      ensures Valid() && View() == A.Append(old(View()), verdict)
      ensures nextFlush == if A.NothingQueued(old(View())) then now + pendingAckFlushInterval else old(nextFlush)
    {
      A.AppendQueues(View(), verdict);
      if currentChunk == [] && fullChunks == [] {
        nextFlush := now + pendingAckFlushInterval;
      }
      currentChunk := currentChunk + [verdict];
      if |currentChunk| == maxChunkSize {
        fullChunks := fullChunks + [currentChunk];
        currentChunk := [];
      }
    }

    /** A full chunk at once, another only when its time has come. None where the source waits on. */
    method TakeChunk(now: nat) returns (chunk: Option<A.Chunk>)
      requires Valid()
      modifies this`currentChunk, this`fullChunks
      ensures Valid()
      ensures chunk.Some? <==> old(fullChunks) != [] || (old(currentChunk) != [] && now >= nextFlush)
      ensures chunk.None? ==> View() == old(View())
      ensures chunk.Some? ==> chunk.value == A.NextChunk(old(View())) && chunk.value != []
      ensures chunk.Some? ==> View() == A.DropChunk(old(View()))
    {
      A.NextChunkTakes(View());
      if fullChunks != [] {
        chunk := Some(fullChunks[0]);
        fullChunks := fullChunks[1..];
      } else if currentChunk != [] && now >= nextFlush {
        chunk := Some(currentChunk);
        currentChunk := [];
      } else {
        chunk := None;
      }
    }

    /**
      Renews at most maxRenewals expired leases and returns their Pub/Sub ids with the
      time since receipt. `renewed` lists the internal ids, `deadlines` their new times.
      An id in the delay queue is always mapped, so no expired timer is skipped.
    */
    method CollectAckIdsThatNeedToBeRenewed(maxRenewals: nat, maxDelay: nat, now: nat)
      returns (result: seq<(nat, ServerId)>, ghost renewed: seq<AckId>, ghost deadlines: map<AckId, nat>)
      requires Valid() && maxDelay >= 2
      modifies this`ackIdMapping, this`leaseRenewalDelayQueue
      ensures Valid() && View() == A.Renew(old(View()), deadlines)
      ensures |result| <= maxRenewals
      ensures Renewal(old(View()).mapped, now, maxDelay, renewed, deadlines, result)
      ensures |result| < maxRenewals ==> Expired(View().mapped, now) == {}
    {
      ghost var before := View();
      result, renewed, deadlines := [], [], map[];
      RenewNone(before);
      while |result| < maxRenewals
        invariant Valid() && View() == A.Renew(before, deadlines)
        invariant |result| <= maxRenewals
        invariant Renewal(before.mapped, now, maxDelay, renewed, deadlines, result)
        decreases maxRenewals - |result|
      {
        ghost var id, deadline;
        var entry;
        entry, id, deadline := RenewNext(now, maxDelay);
        if entry.None? {
          break;
        }
        RenewalExtend(before, now, maxDelay, renewed, deadlines, result, id, deadline);
        deadlines := deadlines + map[id := deadline];
        renewed := renewed + [id];
        result := result + [entry.value];
      }
    }

    /** Renews one expired lease, if there is one. */
    method RenewNext(now: nat, maxDelay: nat) returns (entry: Option<(nat, ServerId)>, ghost id: AckId, ghost deadline: nat)
      requires Valid() && maxDelay >= 2
      modifies this`ackIdMapping, this`leaseRenewalDelayQueue
      ensures Valid() && (entry.None? ==> View() == old(View()) && Expired(View().mapped, now) == {})
      ensures entry.Some? ==>
        && id in Expired(old(View()).mapped, now)
        && now + maxDelay / 2 <= deadline < now + maxDelay
        && entry.value == (Elapsed(now, old(View()).mapped[id].enqueuedAt), old(View()).mapped[id].serverId)
        && View() == A.Renew(old(View()), map[id := deadline])
    {
      id, deadline := 0, 0;
      var expired := PollExpired(now);
      if expired.None? {
        return None, id, deadline;
      }
      var next: nat :| now + maxDelay / 2 <= next < now + maxDelay;
      deadline := next;
      var serverId, enqueuedAt;
      serverId, enqueuedAt, id := Reschedule(expired.value, next);
      entry := Some((Elapsed(now, enqueuedAt), serverId));
    }

    /** Some expired timer, in no particular order. */
    method PollExpired(now: nat) returns (key: Option<nat>)
      requires Valid()
      ensures key.None? ==> Expired(View().mapped, now) == {}
      ensures key.Some? ==> key.value in leaseRenewalDelayQueue
      ensures key.Some? ==> leaseRenewalDelayQueue[key.value].deadline <= now
    {
      var expired := set k | k in leaseRenewalDelayQueue && leaseRenewalDelayQueue[k].deadline <= now;
      if expired == {} {
        forall k | k in leaseRenewalDelayQueue ensures leaseRenewalDelayQueue[k].deadline > now {
          assert k !in expired;
        }
        NoneExpired(ackIdMapping, leaseRenewalDelayQueue, now);
        key := None;
      } else {
        var k :| k in expired;
        key := Some(k);
      }
    }

    /** Takes an expired timer out of the delay queue and schedules the next one for the same id. */
    method Reschedule(oldKey: nat, deadline: nat) returns (serverId: ServerId, enqueuedAt: nat, ghost id: AckId)
      requires Valid() && oldKey in leaseRenewalDelayQueue
      modifies this`ackIdMapping, this`leaseRenewalDelayQueue
      ensures Valid() && id == old(leaseRenewalDelayQueue)[oldKey].ackId && id in old(View()).mapped
      ensures old(View()).mapped[id].renewAt == old(leaseRenewalDelayQueue)[oldKey].deadline
      ensures View() == A.Renew(old(View()), map[id := deadline])
      ensures serverId == old(View()).mapped[id].serverId && enqueuedAt == old(View()).mapped[id].enqueuedAt
    {
      var ackId := leaseRenewalDelayQueue[oldKey].ackId;
      id := ackId;
      var item := ackIdMapping[ackId];
      var rest := leaseRenewalDelayQueue - {oldKey};
      var key := FreshKey(rest);
      PairedRenew(ackIdMapping, leaseRenewalDelayQueue, oldKey, key, deadline);
      RenewOne(View(), ackId, deadline);
      leaseRenewalDelayQueue := rest[key := Delay(ackId, deadline)];
      ackIdMapping := ackIdMapping[ackId := item.(delayKey := key)];
      serverId, enqueuedAt := item.serverId, item.enqueuedAt;
    }
  }
}
