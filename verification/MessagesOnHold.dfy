/** The on-hold buffer with its cached counters, updated in place. */
module MessagesOnHold {
  import opened Options
  import opened PullTypes
  import opened Counting
  import opened MapSums
  import O = PullOrdering

  function Bytes(ms: seq<Message>): nat {
    if ms == [] then 0 else Bytes(ms[..|ms| - 1]) + ms[|ms| - 1].size
  }

  lemma BytesAppend(ms: seq<Message>, m: Message)
    ensures Bytes(ms + [m]) == Bytes(ms) + m.size
  {
    assert (ms + [m])[..|ms|] == ms;
  }

  lemma {:induction false} BytesPrepend(m: Message, ms: seq<Message>)
    ensures Bytes([m] + ms) == m.size + Bytes(ms)
  {
    if ms == [] {
      assert [m] + ms == [m];
      assert [m][..0] == [];
    } else {
      BytesPrepend(m, ms[..|ms| - 1]);
      assert ([m] + ms)[..|ms|] == [m] + ms[..|ms| - 1];
    }
  }

  function ByteTotals(pending: map<string, seq<Message>>): (totals: map<string, nat>)
    ensures totals.Keys == pending.Keys
  {
    map k | k in pending :: Bytes(pending[k])
  }

  /** The total size of the messages on hold. */
  ghost function HoldBytes(h: O.Hold): nat {
    Bytes(h.ready) + Sum(ByteTotals(h.pending))
  }

  lemma PushBytes(h: O.Hold, m: Message)
    ensures HoldBytes(O.Push(h, m)) == HoldBytes(h) + m.size
  {
    var h' := O.Push(h, m);
    BytesAppend(h.ready, m);
    if m.key.Some? {
      var k := m.key.value;
      if k in h.pending {
        BytesAppend(h.pending[k], m);
      }
      var total := Bytes(h'.pending[k]);
      SumPut(ByteTotals(h.pending), k, total);
      assert ByteTotals(h'.pending) == ByteTotals(h.pending)[k := total];
    }
  }

  lemma ActivateBytes(h: O.Hold, k: string)
    ensures HoldBytes(O.Activate(h, k)) == HoldBytes(h)
  {
    if k in h.pending {
      var h' := O.Activate(h, k);
      if h.pending[k] == [] {
        SumRemove(ByteTotals(h.pending), k);
        assert ByteTotals(h'.pending) == ByteTotals(h.pending) - {k};
      } else {
        var m, rest := h.pending[k][0], h.pending[k][1..];
        assert h.pending[k] == [m] + rest;
        BytesPrepend(m, rest);
        BytesPrepend(m, h.ready);
        SumPut(ByteTotals(h.pending), k, Bytes(rest));
        assert ByteTotals(h'.pending) == ByteTotals(h.pending)[k := Bytes(rest)];
      }
    }
  }

  lemma PopCounts(h: O.Hold)
    requires h.ready != []
    ensures var h' := h.(ready := h.ready[1..]);
      O.OnHold(h) == O.OnHold(h') + 1 && HoldBytes(h) == HoldBytes(h') + h.ready[0].size
  {
    assert h.ready == [h.ready[0]] + h.ready[1..];
    BytesPrepend(h.ready[0], h.ready[1..]);
  }

  lemma EmptyCounts()
    ensures O.OnHold(O.EMPTY_HOLD) == 0 && HoldBytes(O.EMPTY_HOLD) == 0
  {
    assert O.Lengths(map[]) == map[];
    assert ByteTotals(map[]) == map[];
  }

  lemma {:induction false} IdsConcat(a: seq<Message>, b: seq<Message>)
    ensures O.Ids(a + b) == O.Ids(a) + O.Ids(b)
  {
    if b == [] {
      assert a + b == a;
    } else {
      IdsConcat(a, b[..|b| - 1]);
      assert (a + b)[..|a + b| - 1] == a + b[..|b| - 1];
    }
  }

  lemma DrainNext(h: O.Hold, order: seq<string>, k: string)
    requires k in h.pending
    ensures O.Ids(O.Drained(h, order + [k])) == O.Ids(O.Drained(h, order)) + O.Ids(h.pending[k])
  {
    assert (order + [k])[..|order|] == order;
    IdsConcat(O.Drained(h, order), h.pending[k]);
    assert O.Drained(h, order + [k]) == O.Drained(h, order) + h.pending[k];
  }

  /** Marks messages as settled elsewhere and collects their ids. */
  method AppendAckIds(ackIds: seq<AckId>, messages: seq<Message>) returns (all: seq<AckId>)
    ensures all == ackIds + O.Ids(messages)
  {
    all := ackIds;
    for i := 0 to |messages|
      invariant all == ackIds + O.Ids(messages[..i])
    {
      assert messages[..i + 1][..i] == messages[..i];
      all := all + [messages[i].id];
    }
    assert messages[..|messages|] == messages;
  }

  class MessagesOnHold {
    var len: nat
    var sizeInBytes: nat
    var readyMessages: seq<Message>
    var pendingOrderedMessages: map<string, seq<Message>>

    ghost function View(): O.Hold
      reads this
    {
      O.Hold(readyMessages, pendingOrderedMessages)
    }

    /** The cached counters agree with the queues. */
    ghost predicate Valid()
      reads this
    {
      len == O.OnHold(View()) && sizeInBytes == HoldBytes(View())
    }

    constructor ()
      ensures Valid() && View() == O.EMPTY_HOLD
    {
      len, sizeInBytes := 0, 0;
      readyMessages, pendingOrderedMessages := [], map[];
      EmptyCounts();
    }

    method Push(message: Message)
      requires Valid()
      modifies this
      ensures Valid() && View() == O.Push(old(View()), message)
    {
      O.PushCount(View(), message);
      PushBytes(View(), message);
      match message.key {
        case Some(orderingKey) =>
          if orderingKey in pendingOrderedMessages {
            var queue := pendingOrderedMessages[orderingKey];
            pendingOrderedMessages := pendingOrderedMessages[orderingKey := queue + [message]];
          } else {
            pendingOrderedMessages := pendingOrderedMessages[orderingKey := []];
            readyMessages := readyMessages + [message];
          }
        case None =>
          readyMessages := readyMessages + [message];
      }
      len := len + 1;
      sizeInBytes := sizeInBytes + message.size;
    }

    method PopReady() returns (message: Option<Message>)
      requires Valid()
      modifies this
      ensures Valid()
      ensures message.None? <==> old(readyMessages) == []
      ensures message.None? ==> View() == old(View())
      ensures message.Some? ==> message.value == old(readyMessages)[0]
      ensures message.Some? ==> View() == old(View()).(ready := old(readyMessages)[1..])
    {
      if readyMessages == [] {
        return None;
      }
      PopCounts(View());
      var front := readyMessages[0];
      readyMessages := readyMessages[1..];
      len := len - 1;
      sizeInBytes := sizeInBytes - front.size;
      message := Some(front);
    }

    method ActivateOrderingKey(orderingKey: string)
      requires Valid()
      modifies this
      ensures Valid() && View() == O.Activate(old(View()), orderingKey)
    {
      O.ActivateCount(View(), orderingKey);
      ActivateBytes(View(), orderingKey);
      ghost var pending := pendingOrderedMessages;
      assert orderingKey !in pending ==> pending - {orderingKey} == pending;
      var next := GetNextForOrderingKey(orderingKey);
      if next.Some? {
        readyMessages := [next.value] + readyMessages;
      }
    }

    /** Takes the head of a key's queue, which stays counted until the caller places it. */
    method GetNextForOrderingKey(orderingKey: string) returns (next: Option<Message>)
      modifies this
      ensures len == old(len) && sizeInBytes == old(sizeInBytes) && readyMessages == old(readyMessages)
      ensures var pending := old(pendingOrderedMessages);
        && (next.Some? <==> orderingKey in pending && pending[orderingKey] != [])
        && (next.Some? ==> next.value == pending[orderingKey][0])
        && pendingOrderedMessages ==
           if next.Some? then pending[orderingKey := pending[orderingKey][1..]] else pending - {orderingKey}
    {
      if orderingKey !in pendingOrderedMessages {
        assert pendingOrderedMessages - {orderingKey} == pendingOrderedMessages;
        return None;
      }
      var queue := pendingOrderedMessages[orderingKey];
      if queue != [] {
        pendingOrderedMessages := pendingOrderedMessages[orderingKey := queue[1..]];
        next := Some(queue[0]);
      } else {
        pendingOrderedMessages := pendingOrderedMessages - {orderingKey};
        next := None;
      }
    }

    /** Empties the buffer. `order` records the order in which the hash map was visited. */
    method DrainAndCollectAllAckIds() returns (ackIds: seq<AckId>, ghost order: seq<string>)
      requires Valid()
      modifies this
      ensures Valid() && View() == O.EMPTY_HOLD
      ensures O.IsOrder(order, old(pendingOrderedMessages).Keys)
      ensures ackIds == O.Ids(O.Drained(old(View()), order))
    {
      ackIds := AppendAckIds([], readyMessages);
      order := [];
      var left := pendingOrderedMessages.Keys;
      assert O.Drained(View(), order) == readyMessages;
      while left != {}
        invariant left <= pendingOrderedMessages.Keys && View() == old(View())
        invariant Distinct(order) && forall k :: k in order <==> k in pendingOrderedMessages && k !in left
        invariant ackIds == O.Ids(O.Drained(View(), order))
        decreases left
      {
        var k :| k in left;
        left := left - {k};
        DrainNext(View(), order, k);
        ackIds := AppendAckIds(ackIds, pendingOrderedMessages[k]);
        order := order + [k];
      }
      readyMessages, pendingOrderedMessages := [], map[];
      len, sizeInBytes := 0, 0;
      EmptyCounts();
    }
  }
}
