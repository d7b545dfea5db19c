/**
  The acknowledgement side of the streaming pull manager: which internal ids are
  mapped to Pub/Sub ids and leased, which acks and nacks wait in chunks, and which
  requests were issued. `Ledger` is the history against which the queue is judged.
*/
module PullAcks {
  import opened PullTypes
  import opened Counting

  datatype Lease = Lease(serverId: ServerId, enqueuedAt: nat, renewAt: nat)

  type Chunk = seq<AckOrNack<ServerId>>

  datatype AckQueue = AckQueue(
    maxChunk: nat,
    lastId: AckId,
    mapped: map<AckId, Lease>,
    current: Chunk,
    full: seq<Chunk>)

  /**
    serverIds: the Pub/Sub id of internal id i is serverIds[i - 1];
    decided: the handler's verdicts, in the order the manager took them;
    released: internal ids nacked by graceful stop without having been handled;
    dispensed: verdicts handed out of the queue so far; requests: what was issued.
  */
  datatype Ledger = Ledger(
    serverIds: seq<ServerId>,
    decided: seq<AckOrNack<AckId>>,
    released: seq<AckId>,
    dispensed: Chunk,
    requests: seq<Request>)

  datatype Books = Books(queue: AckQueue, ledger: Ledger)

  // ---------------------------------------------------------------- operations

  function Store(q: AckQueue, serverId: ServerId, now: nat, renewAt: nat): AckQueue {
    q.(lastId := q.lastId + 1, mapped := q.mapped[q.lastId + 1 := Lease(serverId, now, renewAt)])
  }

  /** Appends to the current chunk and closes the chunk when it is full. */
  function Append(q: AckQueue, a: AckOrNack<ServerId>): AckQueue {
    var chunk := q.current + [a];
    if |chunk| == q.maxChunk
    then q.(current := [], full := q.full + [chunk])
    else q.(current := chunk)
  }

  function Retag<T, U>(a: AckOrNack<T>, id: U): AckOrNack<U> {
    match a
    case Ack(_) => Ack(id)
    case Nack(_) => Nack(id)
  }

  /** An ack or nack of an id that is not mapped is ignored. */
  function Enqueue(q: AckQueue, a: AckOrNack<AckId>): AckQueue {
    if a.id !in q.mapped then q
    else Append(q.(mapped := q.mapped - {a.id}), Retag(a, q.mapped[a.id].serverId))
  }

  predicate NothingQueued(q: AckQueue) {
    q.current == [] && q.full == []
  }

  function NextChunk(q: AckQueue): Chunk {
    if q.full != [] then q.full[0] else q.current
  }

  function DropChunk(q: AckQueue): AckQueue {
    if q.full != [] then q.(full := q.full[1..]) else q.(current := [])
  }

  function Renew(q: AckQueue, deadlines: map<AckId, nat>): AckQueue {
    q.(mapped := map id | id in q.mapped ::
      if id in deadlines then q.mapped[id].(renewAt := deadlines[id]) else q.mapped[id])
  }

  function Acks(c: Chunk): seq<ServerId> {
    if c == [] then []
    else Acks(c[..|c| - 1]) + if c[|c| - 1].Ack? then [c[|c| - 1].id] else []
  }

  function Nacks(c: Chunk): seq<ServerId> {
    if c == [] then []
    else Nacks(c[..|c| - 1]) + if c[|c| - 1].Nack? then [c[|c| - 1].id] else []
  }

  /** At most one acknowledge request and at most one nack request per chunk. */
  function AckMessages(c: Chunk): seq<Request> {
    (if Acks(c) == [] then [] else [Acknowledge(Acks(c))]) +
    (if Nacks(c) == [] then [] else [ModifyAckDeadline(Nacks(c), 0)])
  }

  // The same operations on the queue together with its history.

  function RecordStore(b: Books, serverId: ServerId, now: nat, renewAt: nat): Books {
    Books(Store(b.queue, serverId, now, renewAt), b.ledger.(serverIds := b.ledger.serverIds + [serverId]))
  }

  function RecordEnqueue(b: Books, a: AckOrNack<AckId>): Books {
    if a.id !in b.queue.mapped then b
    else Books(Enqueue(b.queue, a), b.ledger.(decided := b.ledger.decided + [a]))
  }

  function RecordFlush(b: Books): Books {
    var chunk := NextChunk(b.queue);
    Books(DropChunk(b.queue),
          b.ledger.(dispensed := b.ledger.dispensed + chunk, requests := b.ledger.requests + AckMessages(chunk)))
  }

  function RecordRenew(b: Books, deadlines: map<AckId, nat>, rs: seq<Request>): Books {
    Books(Renew(b.queue, deadlines), b.ledger.(requests := b.ledger.requests + rs))
  }

  /** The Pub/Sub ids of the listed ids that are still mapped. */
  function ServerIdsOf(mapped: map<AckId, Lease>, ids: seq<AckId>): seq<ServerId> {
    if ids == [] then []
    else
      (if ids[0] in mapped then [mapped[ids[0]].serverId] else []) + ServerIdsOf(mapped - {ids[0]}, ids[1..])
  }

  /** Gives one batch of ids back to Pub/Sub, in one nack request unless nothing is left to say. */
  function RecordReleaseBatch(b: Books, ids: seq<AckId>): Books {
    var serverIds := ServerIdsOf(b.queue.mapped, ids);
    Books(b.queue.(mapped := b.queue.mapped - (set id | id in ids)),
          b.ledger.(released := b.ledger.released + ids,
                    requests := b.ledger.requests + if serverIds == [] then [] else [ModifyAckDeadline(serverIds, 0)]))
  }

  function RecordRelease(b: Books, ids: seq<AckId>): (b': Books)
    ensures b.ledger.requests <= b'.ledger.requests
    decreases |ids|
  {
    if |ids| <= ACK_IDS_MAX_BATCH_SIZE then
      if ids == [] then b else RecordReleaseBatch(b, ids)
    else
      RecordRelease(RecordReleaseBatch(b, ids[..ACK_IDS_MAX_BATCH_SIZE]), ids[ACK_IDS_MAX_BATCH_SIZE..])
  }

  // ---------------------------------------------------------------- chunking

  function Flatten(chunks: seq<Chunk>): Chunk {
    if chunks == [] then [] else chunks[0] + Flatten(chunks[1..])
  }

  /** The verdicts waiting in the queue, oldest first. */
  function Waiting(q: AckQueue): Chunk {
    Flatten(q.full) + q.current
  }

  ghost predicate ChunksOk(q: AckQueue) {
    && |q.current| < q.maxChunk
    && (forall i :: 0 <= i < |q.full| ==> |q.full[i]| == q.maxChunk)
  }

  lemma {:induction false} FlattenAppend(chunks: seq<Chunk>, c: Chunk)
    ensures Flatten(chunks + [c]) == Flatten(chunks) + c
  {
    if chunks == [] {
      assert chunks + [c] == [c];
      assert [c][1..] == [];
    } else {
      FlattenAppend(chunks[1..], c);
      assert (chunks + [c])[1..] == chunks[1..] + [c];
    }
  }

  /** Appending keeps every full chunk full and the current one short, and adds to the end of the queue. */
  lemma AppendQueues(q: AckQueue, a: AckOrNack<ServerId>)
    requires ChunksOk(q)
    ensures ChunksOk(Append(q, a))
    ensures Waiting(Append(q, a)) == Waiting(q) + [a]
  {
    var chunk := q.current + [a];
    FlattenAppend(q.full, chunk);
    assert Flatten(q.full) + chunk == Waiting(q) + [a];
    if |chunk| == q.maxChunk {
      assert Waiting(Append(q, a)) == Flatten(q.full + [chunk]) + [];
    }
  }

  /**
    A verdict on a mapped id goes to the end of the queue as the same verdict on the id's
    Pub/Sub id, and the id is mapped no more. A verdict on any other id changes nothing.
  */
  lemma EnqueueQueues(q: AckQueue, a: AckOrNack<AckId>)
    requires ChunksOk(q)
    ensures a.id !in q.mapped ==> Enqueue(q, a) == q
    ensures a.id in q.mapped ==>
      && Enqueue(q, a).mapped == q.mapped - {a.id}
      && Waiting(Enqueue(q, a))
         == Waiting(q) + [if a.Ack? then Ack(q.mapped[a.id].serverId) else Nack(q.mapped[a.id].serverId)]
  {
    if a.id in q.mapped {
      AppendQueues(q.(mapped := q.mapped - {a.id}), Retag(a, q.mapped[a.id].serverId));
    }
  }

  /** Taking a chunk takes the oldest verdicts, and takes some whenever there are any. */
  lemma NextChunkTakes(q: AckQueue)
    requires ChunksOk(q)
    ensures ChunksOk(DropChunk(q))
    ensures Waiting(q) == NextChunk(q) + Waiting(DropChunk(q))
    ensures |NextChunk(q)| <= q.maxChunk
    ensures NextChunk(q) == [] <==> NothingQueued(q)
  {
    if q.full == [] {
      assert Flatten(q.full) == [];
    } else {
      assert Flatten(q.full) == q.full[0] + Flatten(q.full[1..]);
      assert |q.full[0]| == q.maxChunk;
    }
  }

  /** The length the source computes from chunk counts is the number of waiting verdicts. */
  lemma {:induction false} WaitingLength(q: AckQueue)
    requires ChunksOk(q)
    ensures |Waiting(q)| == |q.current| + |q.full| * q.maxChunk
    decreases |q.full|
  {
    if q.full != [] {
      var rest := q.(full := q.full[1..]);
      WaitingLength(rest);
      assert |q.full| * q.maxChunk == |rest.full| * q.maxChunk + q.maxChunk;
    }
  }

  // ---------------------------------------------------------------- conservation

  /** How many of the given internal ids carry the Pub/Sub id u. */
  ghost function HeldCount(serverIds: seq<ServerId>, ids: set<AckId>, u: ServerId): nat {
    if serverIds == [] then 0
    else
      HeldCount(serverIds[..|serverIds| - 1], ids, u) +
      if |serverIds| in ids && serverIds[|serverIds| - 1] == u then 1 else 0
  }

  /** How often the acknowledge requests name u. */
  function AckedCount(rs: seq<Request>, u: ServerId): nat {
    if rs == [] then 0
    else
      var r := rs[|rs| - 1];
      AckedCount(rs[..|rs| - 1], u) + if r.Acknowledge? then Count(r.ids, u) else 0
  }

  /** How often the nack requests name u. A nack is a deadline of zero seconds. */
  function NackedCount(rs: seq<Request>, u: ServerId): nat {
    if rs == [] then 0
    else
      var r := rs[|rs| - 1];
      NackedCount(rs[..|rs| - 1], u) + if r.ModifyAckDeadline? && r.secs == 0 then Count(r.ids, u) else 0
  }

  function Name(serverIds: seq<ServerId>, id: AckId): ServerId {
    if 1 <= id <= |serverIds| then serverIds[id - 1] else ""
  }

  function Names(serverIds: seq<ServerId>, ids: seq<AckId>): seq<ServerId> {
    if ids == [] then [] else Names(serverIds, ids[..|ids| - 1]) + [Name(serverIds, ids[|ids| - 1])]
  }

  /** The verdicts taken so far, on Pub/Sub ids. */
  function Verdicts(serverIds: seq<ServerId>, decided: seq<AckOrNack<AckId>>): Chunk {
    if decided == [] then []
    else
      var a := decided[|decided| - 1];
      Verdicts(serverIds, decided[..|decided| - 1]) + [Retag(a, Name(serverIds, a.id))]
  }

  /** The internal id was given to a delivery of u. */
  predicate Carries(serverIds: seq<ServerId>, id: AckId, u: ServerId) {
    1 <= id <= |serverIds| && serverIds[id - 1] == u
  }

  /** Which of the verdicts are acks of u. */
  ghost function AcksOf(serverIds: seq<ServerId>, decided: seq<AckOrNack<AckId>>, u: ServerId): set<nat> {
    set i | 0 <= i < |decided| && decided[i].Ack? && Carries(serverIds, decided[i].id, u)
  }

  /** Which of the verdicts are nacks of u. */
  ghost function NacksOf(serverIds: seq<ServerId>, decided: seq<AckOrNack<AckId>>, u: ServerId): set<nat> {
    set i | 0 <= i < |decided| && decided[i].Nack? && Carries(serverIds, decided[i].id, u)
  }

  /** Which of the ids given back are deliveries of u. */
  ghost function ReleasesOf(serverIds: seq<ServerId>, released: seq<AckId>, u: ServerId): set<nat> {
    set i | 0 <= i < |released| && Carries(serverIds, released[i], u)
  }

  lemma AcksStep(serverIds: seq<ServerId>, decided: seq<AckOrNack<AckId>>, a: AckOrNack<AckId>, u: ServerId)
    ensures |AcksOf(serverIds, decided + [a], u)|
         == |AcksOf(serverIds, decided, u)| + if a.Ack? && Carries(serverIds, a.id, u) then 1 else 0
  {
    var n := |decided|;
    if a.Ack? && Carries(serverIds, a.id, u) {
      assert AcksOf(serverIds, decided + [a], u) == AcksOf(serverIds, decided, u) + {n};
    } else {
      assert AcksOf(serverIds, decided + [a], u) == AcksOf(serverIds, decided, u);
    }
  }

  lemma NacksStep(serverIds: seq<ServerId>, decided: seq<AckOrNack<AckId>>, a: AckOrNack<AckId>, u: ServerId)
    ensures |NacksOf(serverIds, decided + [a], u)|
         == |NacksOf(serverIds, decided, u)| + if a.Nack? && Carries(serverIds, a.id, u) then 1 else 0
  {
    var n := |decided|;
    if a.Nack? && Carries(serverIds, a.id, u) {
      assert NacksOf(serverIds, decided + [a], u) == NacksOf(serverIds, decided, u) + {n};
    } else {
      assert NacksOf(serverIds, decided + [a], u) == NacksOf(serverIds, decided, u);
    }
  }

  lemma ReleasesStep(serverIds: seq<ServerId>, released: seq<AckId>, id: AckId, u: ServerId)
    ensures |ReleasesOf(serverIds, released + [id], u)|
         == |ReleasesOf(serverIds, released, u)| + if Carries(serverIds, id, u) then 1 else 0
  {
    var n := |released|;
    if Carries(serverIds, id, u) {
      assert ReleasesOf(serverIds, released + [id], u) == ReleasesOf(serverIds, released, u) + {n};
    } else {
      assert ReleasesOf(serverIds, released + [id], u) == ReleasesOf(serverIds, released, u);
    }
  }

  lemma {:induction false} VerdictsCounted(serverIds: seq<ServerId>, decided: seq<AckOrNack<AckId>>, u: ServerId)
    requires forall i :: 0 <= i < |decided| ==> 1 <= decided[i].id <= |serverIds|
    ensures Count(Verdicts(serverIds, decided), Ack(u)) == |AcksOf(serverIds, decided, u)|
    ensures Count(Verdicts(serverIds, decided), Nack(u)) == |NacksOf(serverIds, decided, u)|
  {
    if decided != [] {
      var init, a := decided[..|decided| - 1], decided[|decided| - 1];
      VerdictsCounted(serverIds, init, u);
      CountAppend(Verdicts(serverIds, init), Retag(a, Name(serverIds, a.id)), Ack(u));
      CountAppend(Verdicts(serverIds, init), Retag(a, Name(serverIds, a.id)), Nack(u));
      AcksStep(serverIds, init, a, u);
      NacksStep(serverIds, init, a, u);
      assert decided == init + [a];
    }
  }

  lemma {:induction false} ReleasesCounted(serverIds: seq<ServerId>, released: seq<AckId>, u: ServerId)
    requires forall i :: 0 <= i < |released| ==> 1 <= released[i] <= |serverIds|
    ensures Count(Names(serverIds, released), u) == |ReleasesOf(serverIds, released, u)|
  {
    if released != [] {
      var init, id := released[..|released| - 1], released[|released| - 1];
      ReleasesCounted(serverIds, init, u);
      CountAppend(Names(serverIds, init), Name(serverIds, id), u);
      ReleasesStep(serverIds, init, id, u);
      assert released == init + [id];
    }
  }

  /** How often an id was decided or released. */
  function Gone(l: Ledger, id: AckId): nat {
    Count(l.decided, Ack(id)) + Count(l.decided, Nack(id)) + Count(l.released, id)
  }

  function VerdictCount(c: Chunk, u: ServerId): nat {
    Count(c, Ack(u)) + Count(c, Nack(u))
  }

  /** Every mapped id names the Pub/Sub id it was stored with. */
  ghost predicate MappingOk(serverIds: seq<ServerId>, mapped: map<AckId, Lease>) {
    forall id :: id in mapped ==> 1 <= id <= |serverIds| && mapped[id].serverId == serverIds[id - 1]
  }

  /** A stored id is still mapped, or was decided or released exactly once. */
  ghost predicate SettledOnce(l: Ledger, mapped: set<AckId>, id: AckId) {
    Gone(l, id) == if 1 <= id <= |l.serverIds| && id !in mapped then 1 else 0
  }

  /** Verdicts leave the queue in the order they were taken. */
  ghost predicate InOrder(l: Ledger, waiting: Chunk) {
    Verdicts(l.serverIds, l.decided) == l.dispensed + waiting
  }

  /** The requests issued say what the dispensed verdicts and the released ids call for. */
  ghost predicate Requested(l: Ledger, u: ServerId) {
    && AckedCount(l.requests, u) == Count(l.dispensed, Ack(u))
    && NackedCount(l.requests, u) == Count(l.dispensed, Nack(u)) + Count(Names(l.serverIds, l.released), u)
  }

  /** Every delivery is held, decided or released: nothing is lost and nothing is invented. */
  ghost predicate Conserved(l: Ledger, mapped: set<AckId>, u: ServerId) {
    Count(l.serverIds, u)
    == HeldCount(l.serverIds, mapped, u) + VerdictCount(Verdicts(l.serverIds, l.decided), u)
       + Count(Names(l.serverIds, l.released), u)
  }

  ghost predicate BooksInv(b: Books) {
    && ChunksOk(b.queue)
    && b.queue.lastId == |b.ledger.serverIds|
    && MappingOk(b.ledger.serverIds, b.queue.mapped)
    && InOrder(b.ledger, Waiting(b.queue))
    && (forall id :: SettledOnce(b.ledger, b.queue.mapped.Keys, id))
    && (forall u :: Requested(b.ledger, u))
    && (forall u :: Conserved(b.ledger, b.queue.mapped.Keys, u))
  }

  // ---------------------------------------------------------------- counting lemmas

  lemma {:induction false} HeldSame(serverIds: seq<ServerId>, a: set<AckId>, b: set<AckId>, u: ServerId)
    requires forall id :: 1 <= id <= |serverIds| ==> (id in a <==> id in b)
    ensures HeldCount(serverIds, a, u) == HeldCount(serverIds, b, u)
  {
    if serverIds != [] {
      HeldSame(serverIds[..|serverIds| - 1], a, b, u);
    }
  }

  lemma {:induction false} HeldRemove(serverIds: seq<ServerId>, ids: set<AckId>, id: AckId, u: ServerId)
    requires id in ids && 1 <= id <= |serverIds|
    ensures HeldCount(serverIds, ids, u)
         == HeldCount(serverIds, ids - {id}, u) + if serverIds[id - 1] == u then 1 else 0
  {
    var n := |serverIds|;
    if id == n {
      HeldSame(serverIds[..n - 1], ids, ids - {id}, u);
    } else {
      HeldRemove(serverIds[..n - 1], ids, id, u);
    }
  }

  lemma {:induction false} HeldNone(serverIds: seq<ServerId>, u: ServerId)
    ensures HeldCount(serverIds, {}, u) == 0
  {
    if serverIds != [] {
      HeldNone(serverIds[..|serverIds| - 1], u);
    }
  }

  lemma {:induction false} AcksCount(c: Chunk, u: ServerId)
    ensures Count(Acks(c), u) == Count(c, Ack(u))
    ensures Count(Nacks(c), u) == Count(c, Nack(u))
  {
    if c != [] {
      var init, last := c[..|c| - 1], c[|c| - 1];
      AcksCount(init, u);
      CountAppend(Acks(init), last.id, u);
      CountAppend(Nacks(init), last.id, u);
      assert Acks(c) == if last.Ack? then Acks(init) + [last.id] else Acks(init);
      assert Nacks(c) == if last.Nack? then Nacks(init) + [last.id] else Nacks(init);
    }
  }

  lemma RequestsAppend(rs: seq<Request>, r: Request, u: ServerId)
    ensures AckedCount(rs + [r], u) == AckedCount(rs, u) + if r.Acknowledge? then Count(r.ids, u) else 0
    ensures NackedCount(rs + [r], u)
         == NackedCount(rs, u) + if r.ModifyAckDeadline? && r.secs == 0 then Count(r.ids, u) else 0
  {
    assert (rs + [r])[..|rs|] == rs;
  }

  /** Issuing the requests of a chunk acknowledges its acks and nacks its nacks. */
  lemma AckMessagesDeliver(rs: seq<Request>, c: Chunk, u: ServerId)
    ensures AckedCount(rs + AckMessages(c), u) == AckedCount(rs, u) + Count(c, Ack(u))
    ensures NackedCount(rs + AckMessages(c), u) == NackedCount(rs, u) + Count(c, Nack(u))
  {
    AcksCount(c, u);
    var acks, nacks := Acknowledge(Acks(c)), ModifyAckDeadline(Nacks(c), 0);
    var mid := if Acks(c) == [] then rs else rs + [acks];
    RequestsAppend(rs, acks, u);
    RequestsAppend(mid, nacks, u);
    assert rs + AckMessages(c) == if Nacks(c) == [] then mid else mid + [nacks];
  }

  lemma {:induction false} RenewalsSettleNothing(rs: seq<Request>, more: seq<Request>, u: ServerId)
    requires forall i :: 0 <= i < |more| ==> more[i].ModifyAckDeadline? && more[i].secs > 0
    ensures AckedCount(rs + more, u) == AckedCount(rs, u) && NackedCount(rs + more, u) == NackedCount(rs, u)
  {
    if more == [] {
      assert rs + more == rs;
    } else {
      var init := more[..|more| - 1];
      RenewalsSettleNothing(rs, init, u);
      RequestsAppend(rs + init, more[|more| - 1], u);
      assert (rs + init) + [more[|more| - 1]] == rs + more;
    }
  }

  lemma {:induction false} VerdictsExtend(serverIds: seq<ServerId>, decided: seq<AckOrNack<AckId>>, serverId: ServerId)
    requires forall i :: 0 <= i < |decided| ==> 1 <= decided[i].id <= |serverIds|
    ensures Verdicts(serverIds + [serverId], decided) == Verdicts(serverIds, decided)
  {
    if decided != [] {
      VerdictsExtend(serverIds, decided[..|decided| - 1], serverId);
    }
  }

  lemma {:induction false} NamesExtend(serverIds: seq<ServerId>, ids: seq<AckId>, serverId: ServerId)
    requires forall i :: 0 <= i < |ids| ==> 1 <= ids[i] <= |serverIds|
    ensures Names(serverIds + [serverId], ids) == Names(serverIds, ids)
  {
    if ids != [] {
      NamesExtend(serverIds, ids[..|ids| - 1], serverId);
    }
  }

  lemma NamesAppend(serverIds: seq<ServerId>, ids: seq<AckId>, id: AckId)
    ensures Names(serverIds, ids + [id]) == Names(serverIds, ids) + [Name(serverIds, id)]
  {
    assert (ids + [id])[..|ids|] == ids;
  }

  lemma {:induction false} NamesConcat(serverIds: seq<ServerId>, a: seq<AckId>, b: seq<AckId>)
    ensures Names(serverIds, a + b) == Names(serverIds, a) + Names(serverIds, b)
  {
    if b == [] {
      assert a + b == a;
    } else {
      NamesConcat(serverIds, a, b[..|b| - 1]);
      assert (a + b)[..|a + b| - 1] == a + b[..|b| - 1];
    }
  }

  lemma VerdictsAppend(serverIds: seq<ServerId>, decided: seq<AckOrNack<AckId>>, a: AckOrNack<AckId>)
    ensures Verdicts(serverIds, decided + [a]) == Verdicts(serverIds, decided) + [Retag(a, Name(serverIds, a.id))]
  {
    assert (decided + [a])[..|decided|] == decided;
  }

  /** Settled ids are among those stored. */
  lemma GoneInRange(l: Ledger, mapped: set<AckId>)
    requires forall id :: SettledOnce(l, mapped, id)
    ensures forall i :: 0 <= i < |l.decided| ==> 1 <= l.decided[i].id <= |l.serverIds|
    ensures forall i :: 0 <= i < |l.released| ==> 1 <= l.released[i] <= |l.serverIds|
  {
    forall i | 0 <= i < |l.decided| ensures 1 <= l.decided[i].id <= |l.serverIds| {
      CountMember(l.decided, l.decided[i]);
      assert SettledOnce(l, mapped, l.decided[i].id);
    }
    forall i | 0 <= i < |l.released| ensures 1 <= l.released[i] <= |l.serverIds| {
      CountMember(l.released, l.released[i]);
      assert SettledOnce(l, mapped, l.released[i]);
    }
  }

  // ---------------------------------------------------------------- preservation

  lemma StoreKeeps(b: Books, serverId: ServerId, now: nat, renewAt: nat)
    requires BooksInv(b)
    ensures BooksInv(RecordStore(b, serverId, now, renewAt))
  {
    var b' := RecordStore(b, serverId, now, renewAt);
    var l, keys := b.ledger, b.queue.mapped.Keys;
    GoneInRange(l, keys);
    VerdictsExtend(l.serverIds, l.decided, serverId);
    NamesExtend(l.serverIds, l.released, serverId);
    assert b'.queue.mapped.Keys == keys + {|l.serverIds| + 1};
    forall id ensures SettledOnce(b'.ledger, b'.queue.mapped.Keys, id) {
      assert SettledOnce(l, keys, id);
    }
    forall u ensures Requested(b'.ledger, u) {
      assert Requested(l, u);
    }
    forall u ensures Conserved(b'.ledger, b'.queue.mapped.Keys, u) {
      assert Conserved(l, keys, u);
      StoreHeld(l.serverIds, keys, serverId, u);
    }
  }

  lemma StoreHeld(serverIds: seq<ServerId>, mapped: set<AckId>, serverId: ServerId, u: ServerId)
    ensures Count(serverIds + [serverId], u) == Count(serverIds, u) + if serverId == u then 1 else 0
    ensures HeldCount(serverIds + [serverId], mapped + {|serverIds| + 1}, u)
         == HeldCount(serverIds, mapped, u) + if serverId == u then 1 else 0
  {
    var n := |serverIds| + 1;
    CountAppend(serverIds, serverId, u);
    assert (serverIds + [serverId])[..n - 1] == serverIds;
    HeldSame(serverIds, mapped + {n}, mapped, u);
  }

  lemma EnqueueConserved(l: Ledger, mapped: set<AckId>, a: AckOrNack<AckId>, u: ServerId)
    requires Conserved(l, mapped, u) && a.id in mapped && 1 <= a.id <= |l.serverIds|
    ensures Conserved(l.(decided := l.decided + [a]), mapped - {a.id}, u)
  {
    VerdictsAppend(l.serverIds, l.decided, a);
    var vs, v := Verdicts(l.serverIds, l.decided), Retag(a, Name(l.serverIds, a.id));
    CountAppend(vs, v, Ack(u));
    CountAppend(vs, v, Nack(u));
    HeldRemove(l.serverIds, mapped, a.id, u);
  }

  lemma EnqueueSettledOnce(l: Ledger, mapped: set<AckId>, a: AckOrNack<AckId>, id: AckId)
    requires SettledOnce(l, mapped, id) && a.id in mapped && 1 <= a.id <= |l.serverIds|
    ensures SettledOnce(l.(decided := l.decided + [a]), mapped - {a.id}, id)
  {
    CountAppend(l.decided, a, Ack(id));
    CountAppend(l.decided, a, Nack(id));
  }

  lemma EnqueueInOrder(l: Ledger, waiting: Chunk, a: AckOrNack<AckId>)
    requires InOrder(l, waiting)
    ensures InOrder(l.(decided := l.decided + [a]), waiting + [Retag(a, Name(l.serverIds, a.id))])
  {
    VerdictsAppend(l.serverIds, l.decided, a);
  }

  lemma EnqueueKeeps(b: Books, a: AckOrNack<AckId>)
    requires BooksInv(b)
    ensures BooksInv(RecordEnqueue(b, a))
  {
    if a.id in b.queue.mapped {
      var b' := RecordEnqueue(b, a);
      var l, keys := b.ledger, b.queue.mapped.Keys;
      var mid := b.queue.(mapped := b.queue.mapped - {a.id});
      AppendQueues(mid, Retag(a, Name(l.serverIds, a.id)));
      EnqueueInOrder(l, Waiting(b.queue), a);
      assert b'.queue.mapped.Keys == keys - {a.id};
      forall id ensures SettledOnce(b'.ledger, b'.queue.mapped.Keys, id) {
        assert SettledOnce(l, keys, id);
        EnqueueSettledOnce(l, keys, a, id);
      }
      forall u ensures Requested(b'.ledger, u) {
        assert Requested(l, u);
      }
      forall u ensures Conserved(b'.ledger, b'.queue.mapped.Keys, u) {
        assert Conserved(l, keys, u);
        EnqueueConserved(l, keys, a, u);
      }
    }
  }

  lemma FlushInOrder(l: Ledger, chunk: Chunk, waiting: Chunk)
    requires InOrder(l, chunk + waiting)
    ensures InOrder(l.(dispensed := l.dispensed + chunk), waiting)
  {
    assert l.dispensed + (chunk + waiting) == (l.dispensed + chunk) + waiting;
  }

  lemma FlushRequested(l: Ledger, chunk: Chunk, u: ServerId)
    requires Requested(l, u)
    ensures Requested(l.(dispensed := l.dispensed + chunk, requests := l.requests + AckMessages(chunk)), u)
  {
    CountConcat(l.dispensed, chunk, Ack(u));
    CountConcat(l.dispensed, chunk, Nack(u));
    AckMessagesDeliver(l.requests, chunk, u);
  }

  lemma FlushChunkKeeps(b: Books)
    requires BooksInv(b)
    ensures BooksInv(RecordFlush(b))
  {
    var b' := RecordFlush(b);
    var l, keys, chunk := b.ledger, b.queue.mapped.Keys, NextChunk(b.queue);
    NextChunkTakes(b.queue);
    FlushInOrder(l, chunk, Waiting(b'.queue));
    forall id ensures SettledOnce(b'.ledger, keys, id) {
      assert SettledOnce(l, keys, id);
    }
    forall u ensures Requested(b'.ledger, u) {
      assert Requested(l, u);
      FlushRequested(l, chunk, u);
    }
    forall u ensures Conserved(b'.ledger, keys, u) {
      assert Conserved(l, keys, u);
    }
  }

  lemma RenewKeeps(b: Books, deadlines: map<AckId, nat>, rs: seq<Request>)
    requires BooksInv(b)
    requires forall i :: 0 <= i < |rs| ==> rs[i].ModifyAckDeadline? && rs[i].secs > 0
    ensures BooksInv(RecordRenew(b, deadlines, rs))
    ensures RecordRenew(b, deadlines, rs).queue.mapped.Keys == b.queue.mapped.Keys
  {
    var b' := RecordRenew(b, deadlines, rs);
    var l, keys := b.ledger, b.queue.mapped.Keys;
    assert b'.queue.mapped.Keys == keys;
    forall id ensures SettledOnce(b'.ledger, keys, id) {
      assert SettledOnce(l, keys, id);
    }
    forall u ensures Requested(b'.ledger, u) {
      assert Requested(l, u);
      RenewalsSettleNothing(l.requests, rs, u);
    }
    forall u ensures Conserved(b'.ledger, keys, u) {
      assert Conserved(l, keys, u);
    }
  }

  /** Looking up distinct mapped ids yields their names, in order. */
  lemma {:induction false} ServerIdsNamed(serverIds: seq<ServerId>, mapped: map<AckId, Lease>, ids: seq<AckId>)
    requires MappingOk(serverIds, mapped)
    requires Distinct(ids) && forall i :: 0 <= i < |ids| ==> ids[i] in mapped
    ensures ServerIdsOf(mapped, ids) == Names(serverIds, ids)
  {
    if ids != [] {
      ServerIdsNamed(serverIds, mapped - {ids[0]}, ids[1..]);
      NamesConcat(serverIds, [ids[0]], ids[1..]);
      assert ids == [ids[0]] + ids[1..];
      NamesAppend(serverIds, [], ids[0]);
      assert [] + [ids[0]] == [ids[0]];
    }
  }

  /** What a set of ids stops holding when distinct ids leave it is those ids' names. */
  lemma {:induction false} HeldRelease(serverIds: seq<ServerId>, mapped: set<AckId>, ids: seq<AckId>, u: ServerId)
    requires Distinct(ids) && forall i :: 0 <= i < |ids| ==> ids[i] in mapped && 1 <= ids[i] <= |serverIds|
    ensures HeldCount(serverIds, mapped, u)
         == HeldCount(serverIds, mapped - Elements(ids), u) + Count(Names(serverIds, ids), u)
  {
    if ids == [] {
      assert mapped - Elements(ids) == mapped;
    } else {
      var init, id := ids[..|ids| - 1], ids[|ids| - 1];
      HeldRelease(serverIds, mapped, init, u);
      assert ids == init + [id];
      HeldRemove(serverIds, mapped - Elements(init), id, u);
      assert mapped - Elements(init) - {id} == mapped - Elements(ids);
      CountAppend(Names(serverIds, init), Name(serverIds, id), u);
    }
  }

  lemma ReleaseSettledOnce(l: Ledger, mapped: set<AckId>, ids: seq<AckId>, id: AckId)
    requires SettledOnce(l, mapped, id)
    requires Distinct(ids) && forall i :: 0 <= i < |ids| ==> ids[i] in mapped && 1 <= ids[i] <= |l.serverIds|
    ensures SettledOnce(l.(released := l.released + ids), mapped - Elements(ids), id)
  {
    CountConcat(l.released, ids, id);
    CountDistinct(ids, id);
  }

  lemma ReleaseRequested(l: Ledger, ids: seq<AckId>, rs: seq<Request>, u: ServerId)
    requires Requested(l, u)
    requires var names := Names(l.serverIds, ids);
      rs == l.requests + if names == [] then [] else [ModifyAckDeadline(names, 0)]
    ensures Requested(l.(released := l.released + ids, requests := rs), u)
  {
    var names := Names(l.serverIds, ids);
    NamesConcat(l.serverIds, l.released, ids);
    CountConcat(Names(l.serverIds, l.released), names, u);
    if names == [] {
      assert rs == l.requests;
    } else {
      RequestsAppend(l.requests, ModifyAckDeadline(names, 0), u);
    }
  }

  lemma ReleaseConserved(l: Ledger, mapped: set<AckId>, ids: seq<AckId>, u: ServerId)
    requires Conserved(l, mapped, u)
    requires Distinct(ids) && forall i :: 0 <= i < |ids| ==> ids[i] in mapped && 1 <= ids[i] <= |l.serverIds|
    ensures Conserved(l.(released := l.released + ids), mapped - Elements(ids), u)
  {
    HeldRelease(l.serverIds, mapped, ids, u);
    NamesConcat(l.serverIds, l.released, ids);
    CountConcat(Names(l.serverIds, l.released), Names(l.serverIds, ids), u);
  }

  lemma ReleaseBatchKeeps(b: Books, ids: seq<AckId>)
    requires BooksInv(b)
    requires Distinct(ids) && forall i :: 0 <= i < |ids| ==> ids[i] in b.queue.mapped
    ensures BooksInv(RecordReleaseBatch(b, ids))
  {
    var b' := RecordReleaseBatch(b, ids);
    var l, keys := b.ledger, b.queue.mapped.Keys;
    ServerIdsNamed(l.serverIds, b.queue.mapped, ids);
    assert b'.queue.mapped.Keys == keys - Elements(ids);
    forall id ensures SettledOnce(b'.ledger, b'.queue.mapped.Keys, id) {
      assert SettledOnce(l, keys, id);
      ReleaseSettledOnce(l, keys, ids, id);
    }
    forall u ensures Requested(b'.ledger, u) {
      assert Requested(l, u);
      ReleaseRequested(l, ids, b'.ledger.requests, u);
    }
    forall u ensures Conserved(b'.ledger, b'.queue.mapped.Keys, u) {
      assert Conserved(l, keys, u);
      ReleaseConserved(l, keys, ids, u);
    }
  }

  lemma {:induction false} ReleaseKeeps(b: Books, ids: seq<AckId>)
    requires BooksInv(b)
    requires Distinct(ids) && forall i :: 0 <= i < |ids| ==> ids[i] in b.queue.mapped
    ensures BooksInv(RecordRelease(b, ids))
    ensures RecordRelease(b, ids).queue == b.queue.(mapped := b.queue.mapped - Elements(ids))
    decreases |ids|
  {
    if |ids| <= ACK_IDS_MAX_BATCH_SIZE {
      if ids == [] {
        assert b.queue.mapped - Elements(ids) == b.queue.mapped;
      } else {
        ReleaseBatchKeeps(b, ids);
      }
    } else {
      var batch, rest := ids[..ACK_IDS_MAX_BATCH_SIZE], ids[ACK_IDS_MAX_BATCH_SIZE..];
      assert ids == batch + rest;
      ReleaseBatchKeeps(b, batch);
      ReleaseKeeps(RecordReleaseBatch(b, batch), rest);
      assert b.queue.mapped - Elements(batch) - Elements(rest) == b.queue.mapped - Elements(ids);
    }
  }

  // ---------------------------------------------------------------- what the invariant says

  /** At every moment, a delivery is mapped, waiting in a chunk, or in exactly one settling request. */
  lemma WhereDeliveriesAre(b: Books, u: ServerId)
    requires BooksInv(b)
    ensures Count(b.ledger.serverIds, u)
         == HeldCount(b.ledger.serverIds, b.queue.mapped.Keys, u)
            + VerdictCount(Waiting(b.queue), u)
            + AckedCount(b.ledger.requests, u) + NackedCount(b.ledger.requests, u)
  {
    var l, waiting := b.ledger, Waiting(b.queue);
    assert Conserved(l, b.queue.mapped.Keys, u) && Requested(l, u);
    CountConcat(l.dispensed, waiting, Ack(u));
    CountConcat(l.dispensed, waiting, Nack(u));
  }

  /** With nothing mapped and nothing waiting, every delivery was settled, as the handler decided. */
  lemma AllSettled(b: Books, u: ServerId, id: AckId)
    requires BooksInv(b) && b.queue.mapped == map[] && NothingQueued(b.queue)
    ensures Count(b.ledger.serverIds, u) == AckedCount(b.ledger.requests, u) + NackedCount(b.ledger.requests, u)
    ensures AckedCount(b.ledger.requests, u) == |AcksOf(b.ledger.serverIds, b.ledger.decided, u)|
    ensures NackedCount(b.ledger.requests, u)
         == |NacksOf(b.ledger.serverIds, b.ledger.decided, u)| + |ReleasesOf(b.ledger.serverIds, b.ledger.released, u)|
    ensures Gone(b.ledger, id) == if 1 <= id <= |b.ledger.serverIds| then 1 else 0
  {
    WhereDeliveriesAre(b, u);
    HeldNone(b.ledger.serverIds, u);
    assert b.queue.mapped.Keys == {};
    assert Waiting(b.queue) == [];
    assert b.ledger.dispensed + [] == b.ledger.dispensed;
    assert Requested(b.ledger, u);
    assert SettledOnce(b.ledger, b.queue.mapped.Keys, id);
    GoneInRange(b.ledger, b.queue.mapped.Keys);
    VerdictsCounted(b.ledger.serverIds, b.ledger.decided, u);
    ReleasesCounted(b.ledger.serverIds, b.ledger.released, u);
  }

  /** What giving ids back leaves alone. */
  lemma {:induction false} ReleaseFrame(b: Books, ids: seq<AckId>)
    ensures var l, l' := b.ledger, RecordRelease(b, ids).ledger;
      && l'.serverIds == l.serverIds && l'.decided == l.decided && l'.dispensed == l.dispensed
      && l'.released == l.released + ids
    decreases |ids|
  {
    if |ids| <= ACK_IDS_MAX_BATCH_SIZE {
      assert ids == [] ==> b.ledger.released + ids == b.ledger.released;
    } else {
      var batch, rest := ids[..ACK_IDS_MAX_BATCH_SIZE], ids[ACK_IDS_MAX_BATCH_SIZE..];
      ReleaseFrame(RecordReleaseBatch(b, batch), rest);
      assert b.ledger.released + batch + rest == b.ledger.released + ids;
    }
  }
}
