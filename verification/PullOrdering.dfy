/**
  The scheduling core of the streaming pull manager: which messages are on hold,
  which are being handled, and in which order they were received and dispatched.

  `received` and `dispatched` are histories. Everything promised about ordering
  keys follows from one invariant: for each key, what was received is what was
  dispatched, then what is ready, then what is pending, in that order.
*/
module PullOrdering {
  import opened Options
  import opened PullTypes
  import opened Counting
  import opened MapSums

  datatype Hold = Hold(ready: seq<Message>, pending: map<string, seq<Message>>)

  datatype Flight = Flight(key: Option<string>, size: nat)

  datatype Sched = Sched(
    limit: nat,
    hold: Hold,
    flight: map<AckId, Flight>,
    stopping: bool,
    received: seq<Message>,
    dispatched: seq<Message>)

  const EMPTY_HOLD := Hold([], map[])

  // ---------------------------------------------------------------- operations

  /** Adds a message: to its key's queue when there is one, else to the ready queue, opening a queue. */
  function Push(h: Hold, m: Message): Hold {
    match m.key
    case None => h.(ready := h.ready + [m])
    case Some(k) =>
      if k in h.pending
      then h.(pending := h.pending[k := h.pending[k] + [m]])
      else Hold(h.ready + [m], h.pending[k := []])
  }

  /** Moves the next message of a key to the front of the ready queue, or closes the key's empty queue. */
  function Activate(h: Hold, k: string): Hold {
    if k !in h.pending then h
    else if h.pending[k] == [] then h.(pending := h.pending - {k})
    else Hold([h.pending[k][0]] + h.ready, h.pending[k := h.pending[k][1..]])
  }

  function FlightEntry(m: Message): Flight {
    Flight(m.key, m.size)
  }

  function Accept(s: Sched, m: Message): Sched {
    s.(hold := Push(s.hold, m), received := s.received + [m])
  }

  /** Takes a message out of flight and wakes up its ordering key. */
  function Finish(s: Sched, id: AckId): Sched {
    if id !in s.flight then s
    else
      var t := s.(flight := s.flight - {id});
      match s.flight[id].key
      case None => t
      case Some(k) => t.(hold := Activate(t.hold, k))
  }

  predicate CanDispatch(s: Sched) {
    |s.flight| < s.limit && s.hold.ready != []
  }

  function DispatchOne(s: Sched): Sched
    requires s.hold.ready != []
  {
    var m := s.hold.ready[0];
    s.(hold := s.hold.(ready := s.hold.ready[1..]),
       flight := s.flight[m.id := FlightEntry(m)],
       dispatched := s.dispatched + [m])
  }

  /** Dispatches ready messages until the processing limit is reached or none is ready. */
  function Flush(s: Sched): Sched
    decreases |s.hold.ready|
  {
    if CanDispatch(s) then Flush(DispatchOne(s)) else s
  }

  /** Graceful stop: nothing on hold will ever be dispatched. */
  function Drain(s: Sched): Sched {
    s.(hold := EMPTY_HOLD, stopping := true)
  }

  // ---------------------------------------------------------------- invariant

  /** The messages of one ordering key, in order. The key None selects the unordered ones. */
  function ByKey(s: seq<Message>, k: Option<string>): seq<Message> {
    if s == [] then []
    else ByKey(s[..|s| - 1], k) + if s[|s| - 1].key == k then [s[|s| - 1]] else []
  }

  function PendingOf(h: Hold, k: Option<string>): seq<Message> {
    if k.Some? && k.value in h.pending then h.pending[k.value] else []
  }

  function InFlightFor(f: map<AckId, Flight>, k: Option<string>): set<AckId> {
    set id | id in f && f[id].key == k
  }

  function Lengths(pending: map<string, seq<Message>>): (lens: map<string, nat>)
    ensures lens.Keys == pending.Keys
  {
    map k | k in pending :: |pending[k]|
  }

  ghost function PendingTotal(h: Hold): nat {
    Sum(Lengths(h.pending))
  }

  /** The number of messages on hold. */
  ghost function OnHold(h: Hold): nat {
    |h.ready| + PendingTotal(h)
  }

  /** The ids of the messages on hold. */
  function HoldIds(h: Hold): set<AckId> {
    (set m | m in h.ready :: m.id) + (set k, m | k in h.pending && m in h.pending[k] :: m.id)
  }

  /** Message number i carries id i + 1. */
  ghost predicate Numbered(s: seq<Message>) {
    forall i :: 0 <= i < |s| ==> s[i].id == i + 1
  }

  /** What was received for a key is what was dispatched, then ready, then pending. */
  ghost predicate Partition(s: Sched, k: Option<string>) {
    if s.stopping
    then ByKey(s.dispatched, k) <= ByKey(s.received, k)
    else ByKey(s.received, k) == ByKey(s.dispatched, k) + ByKey(s.hold.ready, k) + PendingOf(s.hold, k)
  }

  /** A key has a queue exactly when one of its messages is ready or in flight; otherwise none is. */
  ghost predicate Slot(s: Sched, k: string) {
    var n := |ByKey(s.hold.ready, Some(k))| + |InFlightFor(s.flight, Some(k))|;
    if s.stopping then n <= 1
    else if k in s.hold.pending then n == 1
    else n == 0
  }

  ghost predicate KnownFlight(s: Sched, id: AckId) {
    id in s.flight ==>
      && 1 <= id <= |s.received|
      && s.received[id - 1] in s.dispatched
      && s.flight[id] == FlightEntry(s.received[id - 1])
  }

  ghost predicate SchedInv(s: Sched) {
    && Numbered(s.received)
    && (if s.stopping then s.hold == EMPTY_HOLD else |s.received| == |s.dispatched| + OnHold(s.hold))
    && (forall k :: Partition(s, k))
    && (forall k :: Slot(s, k))
    && (forall id :: KnownFlight(s, id))
    && |s.flight| <= s.limit
  }

  /** No message waits in the ready queue while there is room to process it. */
  ghost predicate Saturated(s: Sched) {
    s.hold.ready == [] || |s.flight| == s.limit
  }

  // ---------------------------------------------------------------- filtering by key

  lemma {:induction false} ByKeyConcat(a: seq<Message>, b: seq<Message>, k: Option<string>)
    ensures ByKey(a + b, k) == ByKey(a, k) + ByKey(b, k)
  {
    if b == [] {
      assert a + b == a;
    } else {
      ByKeyConcat(a, b[..|b| - 1], k);
      assert (a + b)[..|a + b| - 1] == a + b[..|b| - 1];
    }
  }

  /** The part of a one-message sequence that belongs to a key. */
  function Own(m: Message, k: Option<string>): seq<Message> {
    if m.key == k then [m] else []
  }

  lemma ByKeyAppend(s: seq<Message>, m: Message, k: Option<string>)
    ensures ByKey(s + [m], k) == ByKey(s, k) + Own(m, k)
  {
    assert (s + [m])[..|s|] == s;
  }

  lemma ByKeyPrepend(m: Message, s: seq<Message>, k: Option<string>)
    ensures ByKey([m] + s, k) == Own(m, k) + ByKey(s, k)
  {
    ByKeyConcat([m], s, k);
    ByKeyAppend([], m, k);
    assert [] + [m] == [m];
    assert ByKey([m], k) == Own(m, k);
  }

  lemma {:induction false} ByKeyMember(s: seq<Message>, k: Option<string>, m: Message)
    ensures m in ByKey(s, k) <==> m in s && m.key == k
  {
    if s != [] {
      var t := s[..|s| - 1];
      ByKeyMember(t, k, m);
      assert s == t + [s[|s| - 1]];
    }
  }

  lemma {:induction false} ByKeyCount(s: seq<Message>, m: Message)
    ensures Count(ByKey(s, m.key), m) == Count(s, m)
  {
    if s != [] {
      var init, last := s[..|s| - 1], s[|s| - 1];
      ByKeyCount(init, m);
      CountConcat(ByKey(init, m.key), Own(last, m.key), m);
      CountAppend([], last, m);
      assert [] + [last] == [last];
    }
  }

  lemma {:induction false} NumberedOnce(s: seq<Message>, m: Message)
    requires Numbered(s)
    ensures Count(s, m) == if 1 <= m.id <= |s| && s[m.id - 1] == m then 1 else 0
  {
    if s != [] {
      NumberedOnce(s[..|s| - 1], m);
    }
  }

  /** A received message is, once, among those dispatched, ready, or pending for its key. */
  lemma Occurrences(s: Sched, m: Message)
    requires !s.stopping && Numbered(s.received) && Partition(s, m.key)
    ensures Count(s.dispatched, m) + Count(s.hold.ready, m) + Count(PendingOf(s.hold, m.key), m)
         == if 1 <= m.id <= |s.received| && s.received[m.id - 1] == m then 1 else 0
  {
    var d, r, p := ByKey(s.dispatched, m.key), ByKey(s.hold.ready, m.key), PendingOf(s.hold, m.key);
    CountConcat(d + r, p, m);
    CountConcat(d, r, m);
    ByKeyCount(s.dispatched, m);
    ByKeyCount(s.hold.ready, m);
    ByKeyCount(s.received, m);
    NumberedOnce(s.received, m);
  }

  /** A message on hold was received, was never dispatched, and is not in flight. */
  lemma HeldIsNew(s: Sched, m: Message)
    requires SchedInv(s) && !s.stopping
    requires m in s.hold.ready || m in PendingOf(s.hold, m.key)
    ensures 1 <= m.id <= |s.received| && m == s.received[m.id - 1]
    ensures m !in s.dispatched && m.id !in s.flight
  {
    assert Partition(s, m.key);
    Occurrences(s, m);
    CountMember(s.hold.ready, m);
    CountMember(PendingOf(s.hold, m.key), m);
    CountMember(s.dispatched, m);
    assert KnownFlight(s, m.id);
  }

  // ---------------------------------------------------------------- preservation

  // Three regroupings of "dispatched, then ready, then pending".

  lemma RegroupAppend<T>(d: seq<T>, r: seq<T>, p: seq<T>, o: seq<T>, r': seq<T>, p': seq<T>)
    requires (r' == r && p' == p + o) || (r' == r + o && p' == p && (p == [] || o == []))
    ensures d + r + p + o == d + r' + p'
  {
  }

  lemma RegroupDispatch<T>(d: seq<T>, o: seq<T>, r: seq<T>, p: seq<T>)
    ensures d + (o + r) + p == (d + o) + r + p
  {
    assert (o + r) + p == o + (r + p);
  }

  lemma RegroupWake<T>(d: seq<T>, p: seq<T>)
    requires p != []
    ensures d + [] + p == d + ([p[0]] + []) + p[1..]
  {
  }

  /** A pushed message goes to the end of everything its key has on hold. */
  lemma PushAppends(h: Hold, m: Message, k: Option<string>)
    ensures var h', o := Push(h, m), Own(m, k);
      || (ByKey(h'.ready, k) == ByKey(h.ready, k) && PendingOf(h', k) == PendingOf(h, k) + o)
      || (ByKey(h'.ready, k) == ByKey(h.ready, k) + o && PendingOf(h', k) == PendingOf(h, k)
          && (PendingOf(h, k) == [] || o == []))
  {
    if m.key.None? || m.key.value !in h.pending {
      ByKeyAppend(h.ready, m, k);
    }
  }

  lemma AcceptPartition(s: Sched, m: Message, k: Option<string>)
    requires !s.stopping && Partition(s, k)
    ensures Partition(Accept(s, m), k)
  {
    ByKeyAppend(s.received, m, k);
    PushAppends(s.hold, m, k);
    var h := Push(s.hold, m);
    RegroupAppend(ByKey(s.dispatched, k), ByKey(s.hold.ready, k), PendingOf(s.hold, k), Own(m, k),
                  ByKey(h.ready, k), PendingOf(h, k));
  }

  lemma PushCount(h: Hold, m: Message)
    ensures OnHold(Push(h, m)) == OnHold(h) + 1
    ensures HoldIds(Push(h, m)) == HoldIds(h) + {m.id}
  {
    var h' := Push(h, m);
    if m.key.Some? {
      var k := m.key.value;
      var lens := Lengths(h.pending);
      var len := if k in h.pending then |h.pending[k]| + 1 else 0;
      SumPut(lens, k, len);
      assert Lengths(h'.pending) == lens[k := len];
    }
    PushIds(h, m);
  }

  /** The queues of h' together hold what those of h hold and the messages of `more`. */
  ghost predicate HoldsAlso(h: Hold, h': Hold, more: set<Message>) {
    && (forall m :: m in h.ready || m in more ==> Holds(h', m))
    && (forall k, m :: k in h.pending && m in h.pending[k] ==> Holds(h', m))
    && (forall m :: m in h'.ready ==> Holds(h, m) || m in more)
    && (forall k, m :: k in h'.pending && m in h'.pending[k] ==> Holds(h, m) || m in more)
  }

  ghost predicate Holds(h: Hold, m: Message) {
    m in h.ready || exists k :: k in h.pending && m in h.pending[k]
  }

  lemma HoldsId(h: Hold, m: Message)
    requires Holds(h, m)
    ensures m.id in HoldIds(h)
  {
  }

  lemma HolderOf(h: Hold, id: AckId) returns (m: Message)
    requires id in HoldIds(h)
    ensures m.id == id && Holds(h, m)
    ensures m in h.ready || exists k :: k in h.pending && m in h.pending[k]
  {
    if i :| 0 <= i < |h.ready| && h.ready[i].id == id {
      m := h.ready[i];
    } else {
      var k, x :| k in h.pending && x in h.pending[k] && x.id == id;
      m := x;
    }
  }

  lemma SameIds(h: Hold, h': Hold, more: set<Message>)
    requires HoldsAlso(h, h', more)
    ensures HoldIds(h') == HoldIds(h) + set m | m in more :: m.id
  {
    forall id | id in HoldIds(h) ensures id in HoldIds(h') {
      var m := HolderOf(h, id);
      HoldsId(h', m);
    }
    forall m | m in more ensures m.id in HoldIds(h') {
      HoldsId(h', m);
    }
    forall id | id in HoldIds(h') ensures id in HoldIds(h) + set m | m in more :: m.id {
      var m := HolderOf(h', id);
      if m !in more {
        HoldsId(h, m);
      }
    }
  }

  lemma PushIds(h: Hold, m: Message)
    ensures HoldIds(Push(h, m)) == HoldIds(h) + {m.id}
  {
    var h' := Push(h, m);
    forall x | x in h.ready || x == m ensures Holds(h', x) {
      if m.key.Some? && m.key.value in h.pending && x == m {
        assert m in h'.pending[m.key.value];
      }
    }
    forall k, x | k in h.pending && x in h.pending[k] ensures Holds(h', x) {
      assert x in h'.pending[k];
    }
    SameIds(h, h', {m});
  }

  lemma ActivateCount(h: Hold, k: string)
    ensures OnHold(Activate(h, k)) == OnHold(h)
  {
    if k in h.pending {
      var h' := Activate(h, k);
      var lens := Lengths(h.pending);
      if h.pending[k] == [] {
        SumRemove(lens, k);
        assert Lengths(h'.pending) == lens - {k};
      } else {
        var len := |h.pending[k]| - 1;
        SumPut(lens, k, len);
        assert Lengths(h'.pending) == lens[k := len];
      }
    }
  }

  lemma ActivateIds(h: Hold, k: string)
    ensures HoldIds(Activate(h, k)) == HoldIds(h)
  {
    var h' := Activate(h, k);
    if k in h.pending && h.pending[k] != [] {
      assert h.pending[k] == [h.pending[k][0]] + h'.pending[k];
    }
    forall i, x | i in h.pending && x in h.pending[i] ensures Holds(h', x) {
      assert x in h'.ready || x in h'.pending[i];
    }
    forall i, x | i in h'.pending && x in h'.pending[i] ensures Holds(h, x) {
      assert x in h.pending[i];
    }
    SameIds(h, h', {});
  }

  lemma AcceptSlot(s: Sched, m: Message, k: string)
    requires !s.stopping && Slot(s, k)
    ensures Slot(Accept(s, m), k)
  {
    if m.key.None? || m.key.value !in s.hold.pending {
      ByKeyAppend(s.hold.ready, m, Some(k));
    }
  }

  lemma AcceptKeeps(s: Sched, m: Message)
    requires SchedInv(s) && !s.stopping && m.id == |s.received| + 1
    ensures SchedInv(Accept(s, m))
  {
    var t := Accept(s, m);
    PushCount(s.hold, m);
    forall k ensures Partition(t, k) {
      assert Partition(s, k);
      AcceptPartition(s, m, k);
    }
    forall k ensures Slot(t, k) {
      assert Slot(s, k);
      AcceptSlot(s, m, k);
    }
    forall id ensures KnownFlight(t, id) {
      assert KnownFlight(s, id);
    }
  }

  lemma DispatchPartition(s: Sched, k: Option<string>)
    requires !s.stopping && s.hold.ready != [] && Partition(s, k)
    ensures Partition(DispatchOne(s), k)
  {
    var m, rest := s.hold.ready[0], s.hold.ready[1..];
    assert s.hold.ready == [m] + rest;
    ByKeyAppend(s.dispatched, m, k);
    ByKeyPrepend(m, rest, k);
    RegroupDispatch(ByKey(s.dispatched, k), Own(m, k), ByKey(rest, k), PendingOf(s.hold, k));
  }

  lemma DispatchSlot(s: Sched, k: string)
    requires s.hold.ready != [] && s.hold.ready[0].id !in s.flight && Slot(s, k)
    ensures Slot(DispatchOne(s), k)
  {
    var m, rest := s.hold.ready[0], s.hold.ready[1..];
    assert s.hold.ready == [m] + rest;
    ByKeyPrepend(m, rest, Some(k));
    InFlightAdd(s.flight, m, Some(k));
  }

  lemma InFlightAdd(f: map<AckId, Flight>, m: Message, k: Option<string>)
    requires m.id !in f
    ensures |InFlightFor(f[m.id := FlightEntry(m)], k)| == |InFlightFor(f, k)| + |Own(m, k)|
  {
    var after := InFlightFor(f[m.id := FlightEntry(m)], k);
    if m.key == k {
      assert after == InFlightFor(f, k) + {m.id};
    } else {
      assert after == InFlightFor(f, k);
    }
  }

  lemma DispatchOneKeeps(s: Sched)
    requires SchedInv(s) && CanDispatch(s)
    ensures SchedInv(DispatchOne(s))
  {
    var t := DispatchOne(s);
    HeldIsNew(s, s.hold.ready[0]);
    forall k ensures Partition(t, k) {
      assert Partition(s, k);
      DispatchPartition(s, k);
    }
    forall k ensures Slot(t, k) {
      assert Slot(s, k);
      DispatchSlot(s, k);
    }
    forall id ensures KnownFlight(t, id) {
      assert KnownFlight(s, id);
    }
    assert t.flight.Keys == s.flight.Keys + {s.hold.ready[0].id};
  }

  lemma {:induction false} FlushKeeps(s: Sched)
    requires SchedInv(s)
    ensures SchedInv(Flush(s)) && Saturated(Flush(s))
    decreases |s.hold.ready|
  {
    if CanDispatch(s) {
      DispatchOneKeeps(s);
      FlushKeeps(DispatchOne(s));
    }
  }

  /** Every message in a key's queue was received with that key. */
  lemma PendingKeys(s: Sched, k: string, i: nat)
    requires !s.stopping && Partition(s, Some(k)) && k in s.hold.pending && i < |s.hold.pending[k]|
    ensures s.hold.pending[k][i].key == Some(k) && s.hold.pending[k][i] in s.received
  {
    var m := s.hold.pending[k][i];
    var d, r, p := ByKey(s.dispatched, Some(k)), ByKey(s.hold.ready, Some(k)), s.hold.pending[k];
    assert (d + r + p)[|d| + |r| + i] == m;
    ByKeyMember(s.received, Some(k), m);
  }

  /** The message that finishing a message of key k adds to the ready queue, if any. */
  function Woken(h: Hold, k: Option<string>): seq<Message> {
    if PendingOf(h, k) == [] then [] else [PendingOf(h, k)[0]]
  }

  /** Finishing a message adds at most the head of its own key's queue to the ready queue. */
  lemma FinishReady(s: Sched, id: AckId, k: Option<string>)
    requires id in s.flight && (s.stopping ==> s.hold == EMPTY_HOLD)
    requires Partition(s, s.flight[id].key)
    ensures ByKey(Finish(s, id).hold.ready, k)
         == (if s.flight[id].key == k then Woken(s.hold, k) else []) + ByKey(s.hold.ready, k)
  {
    var key := s.flight[id].key;
    if PendingOf(s.hold, key) != [] {
      PendingKeys(s, key.value, 0);
      ByKeyPrepend(PendingOf(s.hold, key)[0], s.hold.ready, k);
    }
  }

  lemma CardMinus(s: set<AckId>, id: AckId)
    ensures |s - {id}| == |s| - if id in s then 1 else 0
  {
    if id !in s {
      assert s - {id} == s;
    }
  }

  lemma InFlightRemove(f: map<AckId, Flight>, id: AckId, k: Option<string>)
    requires id in f
    ensures |InFlightFor(f - {id}, k)| == |InFlightFor(f, k)| - if f[id].key == k then 1 else 0
  {
    assert InFlightFor(f - {id}, k) == InFlightFor(f, k) - {id};
    CardMinus(InFlightFor(f, k), id);
  }

  lemma FinishSlot(s: Sched, id: AckId, k: string)
    requires id in s.flight && (s.stopping ==> s.hold == EMPTY_HOLD)
    requires Partition(s, s.flight[id].key) && Slot(s, k)
    ensures Slot(Finish(s, id), k)
  {
    FinishReady(s, id, Some(k));
    InFlightRemove(s.flight, id, Some(k));
  }

  lemma FinishPending(s: Sched, id: AckId, k: Option<string>)
    requires id in s.flight
    ensures var p := PendingOf(s.hold, k);
      PendingOf(Finish(s, id).hold, k) == if s.flight[id].key == k && p != [] then p[1..] else p
  {
  }

  lemma FinishPartition(s: Sched, id: AckId, k: Option<string>)
    requires id in s.flight && (s.stopping ==> s.hold == EMPTY_HOLD)
    requires Partition(s, k) && Partition(s, s.flight[id].key)
    requires k.Some? ==> Slot(s, k.value)
    ensures Partition(Finish(s, id), k)
  {
    FinishReady(s, id, k);
    FinishPending(s, id, k);
    var d, r, p := ByKey(s.dispatched, k), ByKey(s.hold.ready, k), PendingOf(s.hold, k);
    if s.flight[id].key == k && p != [] {
      assert id in InFlightFor(s.flight, k);
      assert r == [];
      RegroupWake(d, p);
    } else {
      assert [] + r == r;
    }
  }

  lemma FinishKeeps(s: Sched, id: AckId)
    requires SchedInv(s)
    ensures SchedInv(Finish(s, id))
  {
    if id in s.flight {
      var t := Finish(s, id);
      assert Partition(s, s.flight[id].key);
      if s.flight[id].key.Some? {
        ActivateCount(s.hold, s.flight[id].key.value);
      }
      forall k ensures Slot(t, k) {
        assert Slot(s, k);
        FinishSlot(s, id, k);
      }
      forall k ensures Partition(t, k) {
        assert Partition(s, k);
        if k.Some? {
          assert Slot(s, k.value);
        }
        FinishPartition(s, id, k);
      }
      forall i ensures KnownFlight(t, i) {
        assert KnownFlight(s, i);
      }
      assert t.flight.Keys == s.flight.Keys - {id};
    }
  }

  lemma DrainKeeps(s: Sched)
    requires SchedInv(s)
    ensures SchedInv(Drain(s)) && Saturated(Drain(s))
  {
    var t := Drain(s);
    forall k ensures Partition(t, k) {
      assert Partition(s, k);
    }
    forall k ensures Slot(t, k) {
      assert Slot(s, k);
    }
    forall id ensures KnownFlight(t, id) {
      assert KnownFlight(s, id);
    }
  }

  // ---------------------------------------------------------------- what a batch contains

  function Ids(ms: seq<Message>): seq<AckId> {
    if ms == [] then [] else Ids(ms[..|ms| - 1]) + [ms[|ms| - 1].id]
  }

  predicate HasId(ms: seq<Message>, id: AckId) {
    exists i :: 0 <= i < |ms| && ms[i].id == id
  }

  lemma {:induction false} IdsAt(ms: seq<Message>)
    ensures |Ids(ms)| == |ms|
    ensures forall i :: 0 <= i < |ms| ==> Ids(ms)[i] == ms[i].id
  {
    if ms != [] {
      IdsAt(ms[..|ms| - 1]);
    }
  }

  /** How many messages one flush dispatches. */
  function BatchSize(s: Sched): nat {
    var room := if |s.flight| <= s.limit then s.limit - |s.flight| else 0;
    if |s.hold.ready| <= room then |s.hold.ready| else room
  }

  /** The ready messages have different ids, none of which is in flight. */
  ghost predicate FreshReady(s: Sched) {
    && (forall i :: 0 <= i < |s.hold.ready| ==> s.hold.ready[i].id !in s.flight)
    && (forall i, j :: 0 <= i < j < |s.hold.ready| ==> s.hold.ready[i].id != s.hold.ready[j].id)
  }

  ghost predicate TookFront(s: Sched, t: Sched, n: nat) {
    && n <= |s.hold.ready|
    && t.dispatched == s.dispatched + s.hold.ready[..n]
    && t.hold == s.hold.(ready := s.hold.ready[n..])
    && PutInFlight(s.flight, t.flight, s.hold.ready[..n])
    && t.received == s.received && t.stopping == s.stopping && t.limit == s.limit
  }

  ghost predicate PutInFlight(f: map<AckId, Flight>, f': map<AckId, Flight>, ms: seq<Message>) {
    |f'| == |f| + |ms| && forall id :: id in f' <==> id in f || HasId(ms, id)
  }

  lemma Fronts(d: seq<Message>, r: seq<Message>, n: nat)
    requires n < |r|
    ensures d + r[..n + 1] == (d + [r[0]]) + r[1..][..n]
    ensures r[1..][n..] == r[n + 1..]
  {
    assert r[..n + 1] == [r[0]] + r[1..][..n];
  }

  lemma FlightCard(f: map<AckId, Flight>, m: Message)
    requires m.id !in f
    ensures |f[m.id := FlightEntry(m)]| == |f| + 1
  {
    assert f[m.id := FlightEntry(m)].Keys == f.Keys + {m.id};
  }

  lemma FlightStep(f: map<AckId, Flight>, m: Message, f': map<AckId, Flight>, ms: seq<Message>)
    requires m.id !in f && PutInFlight(f[m.id := FlightEntry(m)], f', ms)
    ensures PutInFlight(f, f', [m] + ms)
  {
    FlightCard(f, m);
    forall id ensures HasId([m] + ms, id) <==> id == m.id || HasId(ms, id) {
      HasIdPrepend(m, ms, id);
    }
  }

  lemma HasIdPrepend(m: Message, ms: seq<Message>, id: AckId)
    ensures HasId([m] + ms, id) <==> id == m.id || HasId(ms, id)
  {
    if i :| 0 <= i < |ms| && ms[i].id == id {
      assert ([m] + ms)[i + 1].id == id;
    }
    if id == m.id {
      assert ([m] + ms)[0].id == id;
    }
  }

  lemma TookFrontStep(s: Sched, t: Sched, n: nat)
    requires CanDispatch(s) && s.hold.ready[0].id !in s.flight
    requires TookFront(DispatchOne(s), t, n)
    ensures TookFront(s, t, n + 1)
  {
    var m, rest := s.hold.ready[0], s.hold.ready[1..];
    Fronts(s.dispatched, s.hold.ready, n);
    FlightStep(s.flight, m, t.flight, rest[..n]);
    assert s.hold.ready[..n + 1] == [m] + rest[..n];
  }

  lemma DispatchFresh(s: Sched)
    requires FreshReady(s) && CanDispatch(s)
    ensures FreshReady(DispatchOne(s))
    ensures BatchSize(s) == BatchSize(DispatchOne(s)) + 1
  {
    var u := DispatchOne(s);
    assert u.flight.Keys == s.flight.Keys + {s.hold.ready[0].id};
    assert |u.flight.Keys| == |s.flight.Keys| + 1;
  }

  lemma {:induction false} FlushFresh(s: Sched)
    requires FreshReady(s)
    ensures TookFront(s, Flush(s), BatchSize(s))
    decreases |s.hold.ready|
  {
    if CanDispatch(s) {
      DispatchFresh(s);
      FlushFresh(DispatchOne(s));
      TookFrontStep(s, Flush(s), BatchSize(s) - 1);
    } else {
      assert s.hold.ready[..0] == [];
    }
  }

  lemma ReadyIsFresh(s: Sched)
    requires SchedInv(s)
    ensures FreshReady(s)
  {
    forall i | 0 <= i < |s.hold.ready| ensures s.hold.ready[i].id !in s.flight {
      HeldIsNew(s, s.hold.ready[i]);
    }
    forall i, j | 0 <= i < j < |s.hold.ready| ensures s.hold.ready[i].id != s.hold.ready[j].id {
      var m := s.hold.ready[i];
      HeldIsNew(s, m);
      HeldIsNew(s, s.hold.ready[j]);
      if m == s.hold.ready[j] {
        assert Partition(s, m.key);
        Occurrences(s, m);
        CountTwice(s.hold.ready, i, j);
      }
    }
  }

  /** A flush takes the front of the ready queue, as many messages as there is room for, and nothing else. */
  lemma FlushTakesFront(s: Sched)
    requires SchedInv(s)
    ensures TookFront(s, Flush(s), BatchSize(s))
  {
    ReadyIsFresh(s);
    FlushFresh(s);
  }

  /** No id is on hold and in flight at the same time. */
  lemma HoldDisjoint(s: Sched)
    requires SchedInv(s)
    ensures HoldIds(s.hold) !! s.flight.Keys
  {
    forall id | id in HoldIds(s.hold) ensures id !in s.flight {
      var m := HolderOf(s.hold, id);
      HolderIsOwn(s, m);
      HeldIsNew(s, m);
    }
  }

  /** A held message is ready or in the queue of its own key. */
  lemma HolderIsOwn(s: Sched, m: Message)
    requires SchedInv(s) && !s.stopping && Holds(s.hold, m)
    ensures m in s.hold.ready || m in PendingOf(s.hold, m.key)
  {
    if m !in s.hold.ready {
      var k :| k in s.hold.pending && m in s.hold.pending[k];
      var i :| 0 <= i < |s.hold.pending[k]| && s.hold.pending[k][i] == m;
      assert Partition(s, Some(k));
      PendingKeys(s, k, i);
    }
  }

  // ---------------------------------------------------------------- draining

  /** An iteration order of a hash map: every key once. */
  ghost predicate IsOrder(order: seq<string>, keys: set<string>) {
    Distinct(order) && forall k :: k in keys <==> k in order
  }

  function PendingInOrder(pending: map<string, seq<Message>>, order: seq<string>): seq<Message> {
    if order == [] then []
    else
      var k := order[|order| - 1];
      PendingInOrder(pending, order[..|order| - 1]) + if k in pending then pending[k] else []
  }

  /** The messages a drain removes: the ready ones, then each key's queue. */
  function Drained(h: Hold, order: seq<string>): seq<Message> {
    h.ready + PendingInOrder(h.pending, order)
  }

  lemma {:induction false} PendingMember(pending: map<string, seq<Message>>, order: seq<string>, m: Message)
    ensures m in PendingInOrder(pending, order) <==> exists k :: k in order && k in pending && m in pending[k]
  {
    if order != [] {
      PendingMember(pending, order[..|order| - 1], m);
      assert order == order[..|order| - 1] + [order[|order| - 1]];
    }
  }

  /** Only the queue of a message's own key contributes to its count. */
  lemma {:induction false} PendingCount(s: Sched, order: seq<string>, m: Message)
    requires SchedInv(s) && !s.stopping && Distinct(order)
    ensures Count(PendingInOrder(s.hold.pending, order), m)
         == if m.key.Some? && m.key.value in order then Count(PendingOf(s.hold, m.key), m) else 0
  {
    if order != [] {
      var init, k := order[..|order| - 1], order[|order| - 1];
      PendingCount(s, init, m);
      assert order == init + [k];
      var queue := PendingOf(s.hold, Some(k));
      CountConcat(PendingInOrder(s.hold.pending, init), queue, m);
      CountMember(queue, m);
      if m in queue {
        HolderIsKeyed(s, k, m);
      }
    }
  }

  lemma HolderIsKeyed(s: Sched, k: string, m: Message)
    requires SchedInv(s) && !s.stopping && m in PendingOf(s.hold, Some(k))
    ensures m.key == Some(k)
  {
    var i :| 0 <= i < |s.hold.pending[k]| && s.hold.pending[k][i] == m;
    assert Partition(s, Some(k));
    PendingKeys(s, k, i);
  }

  /** A drain removes every message on hold exactly once, in whatever order the map is visited. */
  lemma DrainedOnce(s: Sched, order: seq<string>)
    requires SchedInv(s) && !s.stopping && IsOrder(order, s.hold.pending.Keys)
    ensures Distinct(Ids(Drained(s.hold, order)))
    ensures forall id :: id in Ids(Drained(s.hold, order)) <==> id in HoldIds(s.hold)
  {
    var ms := Drained(s.hold, order);
    IdsAt(ms);
    forall m ensures m in ms <==> Holds(s.hold, m) {
      PendingMember(s.hold.pending, order, m);
    }
    forall id ensures id in Ids(ms) <==> id in HoldIds(s.hold) {
      if id in Ids(ms) {
        var i :| 0 <= i < |ms| && Ids(ms)[i] == id;
        HoldsId(s.hold, ms[i]);
      }
      if id in HoldIds(s.hold) {
        var m := HolderOf(s.hold, id);
        var i :| 0 <= i < |ms| && ms[i] == m;
        assert Ids(ms)[i] == id;
      }
    }
    forall i, j | 0 <= i < j < |ms| ensures ms[i].id != ms[j].id {
      DrainedDistinct(s, order, i, j);
    }
  }

  lemma DrainedDistinct(s: Sched, order: seq<string>, i: nat, j: nat)
    requires SchedInv(s) && !s.stopping && IsOrder(order, s.hold.pending.Keys)
    requires i < j < |Drained(s.hold, order)|
    ensures Drained(s.hold, order)[i].id != Drained(s.hold, order)[j].id
  {
    var ms := Drained(s.hold, order);
    forall m | m in ms ensures Count(ms, m) <= 1 && 1 <= m.id <= |s.received| && s.received[m.id - 1] == m {
      CountConcat(s.hold.ready, PendingInOrder(s.hold.pending, order), m);
      PendingCount(s, order, m);
      assert Partition(s, m.key);
      Occurrences(s, m);
      CountMember(ms, m);
    }
    assert ms[i] in ms && ms[j] in ms;
    if ms[i] == ms[j] {
      CountTwice(ms, i, j);
    }
  }

  // ---------------------------------------------------------------- what the invariant promises

  lemma AtMostOne(ids: set<AckId>, a: AckId, b: AckId)
    requires |ids| <= 1 && a in ids && b in ids
    ensures a == b
  {
    assert |ids - {a}| == 0;
    assert b !in ids - {a};
  }

  /** At most one message of an ordering key is in flight. */
  lemma OneInFlightPerKey(s: Sched, a: AckId, b: AckId)
    requires SchedInv(s) && a in s.flight && b in s.flight
    requires s.flight[a].key.Some? && s.flight[a].key == s.flight[b].key
    ensures a == b
  {
    var k := s.flight[a].key;
    assert Slot(s, k.value);
    AtMostOne(InFlightFor(s.flight, k), a, b);
  }

  /** Per key, messages are dispatched in the order they were received, without gaps. */
  lemma DispatchedIsPrefix(s: Sched, k: Option<string>)
    requires SchedInv(s)
    ensures ByKey(s.dispatched, k) <= ByKey(s.received, k)
  {
    assert Partition(s, k);
  }

  /** When something is on hold, something is in flight: every waiting message waits on a completion. */
  lemma NothingStuck(s: Sched)
    requires SchedInv(s) && Saturated(s) && s.limit > 0 && s.hold != EMPTY_HOLD
    ensures s.flight != map[]
  {
    if s.hold.ready == [] {
      var k :| k in s.hold.pending;
      assert Slot(s, k);
      assert ByKey(s.hold.ready, Some(k)) == [];
      assert InFlightFor(s.flight, Some(k)) != {};
      var id :| id in InFlightFor(s.flight, Some(k));
      assert id in s.flight;
    }
  }
}
