/**
  The streaming pull manager as the source writes it: handlers that update the
  buffers in place, with their loops. Each handler is proved to be the step of the
  protocol it stands for, so the theorems about runs hold of `MainLoop`.
*/
module StreamingPullManager {
  import opened Options
  import opened PullTypes
  import opened Counting
  import opened LeaseTiming
  import O = PullOrdering
  import A = PullAcks
  import P = PullProtocol
  import H = MessagesOnHold
  import F = MessagesInFlight
  import Q = MessageAckQueue

  datatype Channel = Connecting | Connected | Closed

  /** Milliseconds that a verdict may wait for its chunk to fill. */
  const PENDING_ACK_FLUSH_INTERVAL: nat := 100

  /** Splits a chunk into the request that acknowledges and the one that nacks. */
  method MakeAckMessages(chunk: A.Chunk) returns (ackRequest: Option<Request>, nackRequest: Option<Request>)
    ensures ackRequest == if A.Acks(chunk) == [] then None else Some(Acknowledge(A.Acks(chunk)))
    ensures nackRequest == if A.Nacks(chunk) == [] then None else Some(ModifyAckDeadline(A.Nacks(chunk), 0))
  {
    var ackIds, nackIds := [], [];
    for i := 0 to |chunk|
      invariant ackIds == A.Acks(chunk[..i]) && nackIds == A.Nacks(chunk[..i])
    {
      assert chunk[..i + 1][..i] == chunk[..i];
      match chunk[i] {
        case Ack(id) => ackIds := ackIds + [id];
        case Nack(id) => nackIds := nackIds + [id];
      }
    }
    assert chunk[..|chunk|] == chunk;
    ackRequest := if ackIds == [] then None else Some(Acknowledge(ackIds));
    nackRequest := if nackIds == [] then None else Some(ModifyAckDeadline(nackIds, 0));
  }

  lemma RemovePrefix(mapped: map<AckId, A.Lease>, ids: seq<AckId>, i: nat)
    requires i < |ids|
    ensures mapped - Elements(ids[..i + 1]) == mapped - Elements(ids[..i]) - {ids[i]}
  {
    assert ids[..i + 1] == ids[..i] + [ids[i]];
  }

  lemma ServerIdsHead(mapped: map<AckId, A.Lease>, ids: seq<AckId>, i: nat, found: seq<ServerId>)
    requires i < |ids|
    ensures found + A.ServerIdsOf(mapped, ids[i..])
         == (found + if ids[i] in mapped then [mapped[ids[i]].serverId] else [])
            + A.ServerIdsOf(mapped - {ids[i]}, ids[i + 1..])
  {
    assert ids[i..][1..] == ids[i + 1..];
  }

  /** The ids named by a sequence of requests, in order. */
  function RequestIds(rs: seq<Request>): seq<ServerId> {
    if rs == [] then [] else RequestIds(rs[..|rs| - 1]) + rs[|rs| - 1].ids
  }

  /** Issuing the renewal of one more chunk. */
  lemma IssueMore(base: seq<Request>, rs: seq<Request>, names: seq<ServerId>, secs: nat)
    requires P.Renewals(rs) && secs > 0
    ensures var issued := RenewalRequest(names, secs);
      && (base + rs) + issued == base + (rs + issued)
      && P.Renewals(rs + issued)
      && RequestIds(rs + issued) == RequestIds(rs) + names
  {
    if names == [] {
      assert rs + [] == rs;
    } else {
      assert (rs + RenewalRequest(names, secs))[..|rs|] == rs;
    }
  }

  /** No request when there is nothing to renew. */
  function RenewalRequest(names: seq<ServerId>, secs: nat): seq<Request> {
    if names == [] then [] else [ModifyAckDeadline(names, secs)]
  }

  /** Each new renewal, even a tick late, comes a second before a lease of that many seconds granted now runs out. */
  ghost predicate RenewedInTime(times: map<AckId, nat>, now: nat, secs: nat) {
    forall id :: id in times ==> times[id] + LEASE_RENEWAL_INTERVAL + 1000 < now + secs * 1000
  }

  /** A message's first renewal is due a second after receipt; carried out a tick late, it is still inside any allowed lease. */
  lemma FirstRenewalInTime(m: P.Manager, r: Received, now: nat, flow: FlowControl, p99: nat, at: nat)
    requires r.body.Some? && AllowedLease(flow)
    ensures var id := m.books.queue.lastId + 1;
      var mapped := P.StoreOne(m, r, now).books.queue.mapped;
      && id in mapped && mapped[id].renewAt == now + 1000
      && (at <= mapped[id].renewAt + LEASE_RENEWAL_INTERVAL ==> at < now + LeaseSecs(flow, p99) * 1000)
  {
    LeaseIsClampedRoundUp(flow, p99);
  }

  /** Something that wakes up the main loop. An event that cannot happen in the current state is ignored. */
  datatype Event =
    | Settled(verdict: AckOrNack<AckId>)
    | StopAsked
    | Responded(batch: seq<Received>, now: nat)
    | StreamFailed
    | MailArrived(now: nat)
    | ChunkDue(now: nat)
    | LeaseTick(now: nat)
    | MetricsTick
    | TaskDone

  /** A full chunk is flushed at once, another one when its time has come. */
  predicate ChunkReady(q: A.AckQueue, nextFlush: nat, now: nat) {
    q.full != [] || (q.current != [] && now >= nextFlush)
  }

  /** The first verdict to wait sets the time by which its chunk is flushed; later ones do not put it off. */
  function VerdictFlush(q: A.AckQueue, nextFlush: nat, v: AckOrNack<AckId>, now: nat): nat {
    if v.id in q.mapped && A.NothingQueued(q) then now + PENDING_ACK_FLUSH_INTERVAL else nextFlush
  }

  function MessageFlush(q: A.AckQueue, nextFlush: nat, message: P.ManagerMessage, now: nat): nat {
    match message
    case Verdict(v) => VerdictFlush(q, nextFlush, v, now)
    case GracefulStop => nextFlush
  }

  /** The renewals name the leases that were due, each once, and give each a time to come. */
  ghost predicate RenewsDue(m: P.Manager, now: nat, deadlines: map<AckId, nat>, rs: seq<Request>, renewed: seq<AckId>) {
    && Q.Pass(m.books.queue.mapped, now, renewed, deadlines)
    && deadlines.Keys == Q.Expired(m.books.queue.mapped, now)
    && RequestIds(rs) == Q.NamesOf(m.books.queue.mapped, renewed)
  }

  /** Whether an event finds the loop running and something to do. */
  predicate Wakes(s: P.System, nextFlush: nat, event: Event) {
    match event
    case Settled(v) => v.id in s.outside
    case StopAsked => true
    case _ =>
      && !P.ShouldStop(s.manager)
      && match event
         case Responded(_, _) => s.manager.open
         case StreamFailed => s.manager.open
         case MailArrived(_) => s.mailbox != []
         case ChunkDue(now) => ChunkReady(s.manager.books.queue, nextFlush, now)
         case TaskDone => s.manager.background > 0
         case _ => true
  }

  /** The action of the protocol that an event stands for. */
  ghost predicate Means(s: P.System, event: Event, action: P.Action) {
    match event
    case Settled(v) => action == P.Settle(v)
    case StopAsked => action == P.AskStop
    case Responded(batch, now) => action == P.Respond(batch, now)
    case StreamFailed => action == P.StreamError
    case MailArrived(_) => action.Receive?
    case ChunkDue(_) => action == P.FlushChunk
    case LeaseTick(now) =>
      action.RenewLeases? && exists renewed :: RenewsDue(s.manager, now, action.deadlines, action.renewals, renewed)
    case MetricsTick => action == P.ReportMetrics
    case TaskDone => action == P.BackgroundDone
  }

  function FlushTime(s: P.System, nextFlush: nat, event: Event): nat {
    if event.MailArrived? && s.mailbox != [] && !P.ShouldStop(s.manager)
    then MessageFlush(s.manager.books.queue, nextFlush, s.mailbox[0], event.now)
    else nextFlush
  }

  /** An event does nothing exactly when there is nothing to do; otherwise it does what it stands for. */
  ghost predicate Answers(s: P.System, nextFlush: nat, event: Event, action: Option<P.Action>, nextFlush': nat) {
    && (action.Some? <==> Wakes(s, nextFlush, event))
    && (action.Some? ==> Means(s, event, action.value))
    && nextFlush' == FlushTime(s, nextFlush, event)
  }

  /** The actions that were taken, in order. */
  function Done(taken: seq<Option<P.Action>>): seq<P.Action> {
    if taken == [] then []
    else
      var init := Done(taken[..|taken| - 1]);
      match taken[|taken| - 1]
      case None => init
      case Some(a) => init + [a]
  }

  /** Event by event, the actions taken are the answers to the events, each in the state that the ones before led to. */
  ghost predicate Answered(s: P.System, nextFlush: nat, events: seq<Event>, taken: seq<Option<P.Action>>, nextFlush': nat)
    requires |taken| == |events|
    decreases |events|
  {
    if events == [] then nextFlush' == nextFlush
    else
      var n := |events| - 1;
      exists mid: nat ::
        && Answered(s, nextFlush, events[..n], taken[..n], mid)
        && Answers(P.Run(s, Done(taken[..n])), mid, events[n], taken[n], nextFlush')
  }

  class StreamingPullManager {
    const flow: FlowControl
    const messagesOnHold: H.MessagesOnHold
    const messagesInFlight: F.MessagesInFlight
    const messageAckQueue: Q.MessageAckQueue
    var channel: Channel
    var gracefulStop: bool
    var messageLeaseRenewalDurationSecs: nat
    var backgroundTasks: nat
    /** The messages given to the handler and the requests given to the network, in order. */
    var handled: seq<Message>
    /** The receiving end of the channel that carries verdicts and stop requests. */
    var receiver: seq<P.ManagerMessage>
    /** The handled messages whose guard has not been used. */
    var guards: set<AckId>
    var requests: seq<Request>
    ghost var received: seq<Message>
    ghost var serverIds: seq<ServerId>
    ghost var decided: seq<AckOrNack<AckId>>
    ghost var released: seq<AckId>
    ghost var dispensed: A.Chunk

    ghost function Sched(): O.Sched
      reads this, messagesOnHold, messagesInFlight
    {
      O.Sched(flow.maxProcessingMessages, messagesOnHold.View(), messagesInFlight.messagesInFlight,
              gracefulStop, received, handled)
    }

    ghost function Books(): A.Books
      reads this, messageAckQueue
    {
      A.Books(messageAckQueue.View(), A.Ledger(serverIds, decided, released, dispensed, requests))
    }

    ghost function View(): P.Manager
      reads this, messagesOnHold, messagesInFlight, messageAckQueue
    {
      P.Manager(Sched(), Books(), !channel.Closed?, backgroundTasks)
    }

    ghost function System(): P.System
      reads this, messagesOnHold, messagesInFlight, messageAckQueue
    {
      P.System(View(), receiver, guards)
    }

    ghost predicate Valid()
      reads this, messagesOnHold, messagesInFlight, messageAckQueue
    {
      && messagesOnHold.Valid() && messagesInFlight.Valid() && messageAckQueue.Valid()
      && AllowedLease(flow) && messageAckQueue.pendingAckFlushInterval == PENDING_ACK_FLUSH_INTERVAL
    }

    constructor (flow: FlowControl, now: nat)
      requires AllowedLease(flow) && flow.maxMessages > 0
      ensures Valid() && this.flow == flow
      ensures fresh(messagesOnHold) && fresh(messagesInFlight) && fresh(messageAckQueue)
      ensures System() == P.Initial(flow.maxProcessingMessages,
        if flow.maxMessages < ACK_IDS_MAX_BATCH_SIZE then flow.maxMessages else ACK_IDS_MAX_BATCH_SIZE)
    {
      this.flow := flow;
      messagesOnHold := new H.MessagesOnHold();
      messagesInFlight := new F.MessagesInFlight();
      messageAckQueue := new Q.MessageAckQueue(
        if flow.maxMessages < ACK_IDS_MAX_BATCH_SIZE then flow.maxMessages else ACK_IDS_MAX_BATCH_SIZE,
        PENDING_ACK_FLUSH_INTERVAL, now);
      channel, gracefulStop, backgroundTasks := Connecting, false, 0;
      messageLeaseRenewalDurationSecs := flow.minSecs;
      receiver, guards := [], {};
      handled, requests, received, serverIds, decided, released, dispensed := [], [], [], [], [], [], [];
    }

    method PerformRequestInBackground(request: Request)
      modifies this`requests, this`backgroundTasks
      ensures requests == old(requests) + [request] && backgroundTasks == old(backgroundTasks) + 1
    {
      requests := requests + [request];
      backgroundTasks := backgroundTasks + 1;
    }

    method TransformAndInsertMessagesIntoMessagesOnHold(batch: seq<Received>, now: nat)
      requires Valid()
      modifies this`received, this`serverIds, messagesOnHold, messageAckQueue
      ensures Valid() && View() == P.StoreAll(old(View()), batch, now)
      ensures messageAckQueue.nextFlush == old(messageAckQueue.nextFlush)
    {
      for i := 0 to |batch|
        invariant Valid() && View() == P.StoreAll(old(View()), batch[..i], now)
        invariant messageAckQueue.nextFlush == old(messageAckQueue.nextFlush)
      {
        assert batch[..i + 1][..i] == batch[..i];
        InsertMessage(batch[i], now);
      }
      assert batch[..|batch|] == batch;
    }

    method InsertMessage(entry: Received, now: nat)
      requires Valid()
      modifies this`received, this`serverIds, messagesOnHold, messageAckQueue
      ensures Valid() && View() == P.StoreOne(old(View()), entry, now)
      ensures messageAckQueue.nextFlush == old(messageAckQueue.nextFlush)
    {
      if entry.body.Some? {
        ghost var sched := Sched();
        var id := StoreAckId(entry.serverId, now);
        assert Sched() == sched;
        ghost var books := Books();
        HoldMessage(Message(id, OrderingKey(entry.body.value.orderingKey), entry.body.value.size));
        assert Books() == books;
      }
    }

    method StoreAckId(serverId: ServerId, now: nat) returns (id: AckId)
      requires messageAckQueue.Valid()
      modifies this`serverIds, messageAckQueue
      ensures messageAckQueue.Valid() && id == old(messageAckQueue.View()).lastId + 1
      ensures Books() == A.RecordStore(old(Books()), serverId, now, now + P.FIRST_RENEWAL_DELAY)
      ensures messageAckQueue.nextFlush == old(messageAckQueue.nextFlush)
    {
      id := messageAckQueue.TransformAndStoreAckId(serverId, now, now + P.FIRST_RENEWAL_DELAY);
      serverIds := serverIds + [serverId];
    }

    method HoldMessage(message: Message)
      requires messagesOnHold.Valid()
      modifies this`received, messagesOnHold
      ensures messagesOnHold.Valid() && Sched() == O.Accept(old(Sched()), message)
    {
      messagesOnHold.Push(message);
      received := received + [message];
    }

    method TryFlushMessagesOnHoldBatch()
      requires Valid()
      modifies this`handled, messagesOnHold, messagesInFlight
      ensures Valid() && View() == P.FlushReady(old(View()))
    {
      var messages := TakeReadyBatch();
      if messages != [] {
        handled := handled + messages;
      }
    }

    method TakeReadyBatch() returns (messages: seq<Message>)
      requires messagesOnHold.Valid() && messagesInFlight.Valid()
      modifies messagesOnHold, messagesInFlight
      ensures messagesOnHold.Valid() && messagesInFlight.Valid()
      ensures Sched().(dispatched := handled + messages) == O.Flush(old(Sched()))
      ensures messages == [] ==> handled + messages == handled
    {
      messages := [];
      assert handled + [] == handled;
      while |messagesInFlight.messagesInFlight| < flow.maxProcessingMessages
        invariant messagesOnHold.Valid() && messagesInFlight.Valid()
        invariant O.Flush(Sched().(dispatched := handled + messages)) == O.Flush(old(Sched()))
        decreases |messagesOnHold.readyMessages|
      {
        var message := messagesOnHold.PopReady();
        if message.None? {
          break;
        }
        messagesInFlight.Insert(message.value);
        assert handled + (messages + [message.value]) == handled + messages + [message.value];
        messages := messages + [message.value];
      }
    }

    method HandleStreamingPullResponse(batch: seq<Received>, now: nat)
      requires Valid()
      modifies this`received, this`serverIds, this`handled, messagesOnHold, messagesInFlight, messageAckQueue
      ensures Valid() && View() == P.HandleResponse(old(View()), batch, now)
      ensures messageAckQueue.nextFlush == old(messageAckQueue.nextFlush)
    {
      TransformAndInsertMessagesIntoMessagesOnHold(batch, now);
      TryFlushMessagesOnHoldBatch();
    }

    method HandleAckOrNack(ackOrNack: AckOrNack<AckId>, now: nat)
      requires Valid()
      modifies this`decided, this`handled, messagesOnHold, messagesInFlight, messageAckQueue
      ensures Valid() && View() == P.HandleVerdict(old(View()), ackOrNack)
      ensures messageAckQueue.nextFlush == VerdictFlush(old(messageAckQueue.View()), old(messageAckQueue.nextFlush), ackOrNack, now)
    {
      EnqueueVerdict(ackOrNack, now);
      FinishMessage(ackOrNack.id);
      TryFlushMessagesOnHoldBatch();
    }

    method EnqueueVerdict(ackOrNack: AckOrNack<AckId>, now: nat)
      requires messageAckQueue.Valid() && messageAckQueue.pendingAckFlushInterval == PENDING_ACK_FLUSH_INTERVAL
      modifies this`decided, messageAckQueue
      ensures messageAckQueue.Valid() && Books() == A.RecordEnqueue(old(Books()), ackOrNack)
      ensures messageAckQueue.nextFlush == VerdictFlush(old(messageAckQueue.View()), old(messageAckQueue.nextFlush), ackOrNack, now)
    {
      if ackOrNack.id in messageAckQueue.View().mapped {
        decided := decided + [ackOrNack];
      }
      messageAckQueue.EnqueueAckOrNack(ackOrNack, now);
    }

    method FinishMessage(ackId: AckId)
      requires messagesOnHold.Valid() && messagesInFlight.Valid()
      modifies messagesOnHold, messagesInFlight
      ensures messagesOnHold.Valid() && messagesInFlight.Valid() && Sched() == O.Finish(old(Sched()), ackId)
    {
      ghost var flight := messagesInFlight.messagesInFlight;
      assert ackId !in flight ==> flight - {ackId} == flight;
      var orderingKey := messagesInFlight.Remove(ackId);
      if orderingKey.Some? && orderingKey.value.Some? {
        messagesOnHold.ActivateOrderingKey(orderingKey.value.value);
      }
    }

    /** Begins a graceful stop. `order` is the order in which the on-hold queues were visited. */
    method HandleGracefulStop() returns (accepted: bool, ghost order: seq<string>)
      requires Valid()
      modifies this`channel, this`gracefulStop, this`released, this`requests, this`backgroundTasks
      modifies messagesOnHold, messageAckQueue
      ensures Valid() && accepted == !old(gracefulStop)
      ensures O.IsOrder(order, old(messagesOnHold.pendingOrderedMessages).Keys)
      ensures View() == P.HandleGracefulStop(old(View()), order)
      ensures messageAckQueue.nextFlush == old(messageAckQueue.nextFlush)
    {
      if gracefulStop {
        order := SomeOrder(messagesOnHold.pendingOrderedMessages.Keys);
        return false, order;
      }
      channel := Closed;
      ghost var sched := Sched();
      var ackIds;
      ackIds, order := messagesOnHold.DrainAndCollectAllAckIds();
      assert Sched() == sched.(hold := O.EMPTY_HOLD);
      NackAll(ackIds);
      assert Sched() == sched.(hold := O.EMPTY_HOLD);
      gracefulStop := true;
      accepted := true;
    }

    method NackAll(ackIds: seq<AckId>)
      requires messageAckQueue.Valid()
      modifies this`released, this`requests, this`backgroundTasks, messageAckQueue
      ensures messageAckQueue.Valid() && Books() == A.RecordRelease(old(Books()), ackIds)
      ensures messageAckQueue.nextFlush == old(messageAckQueue.nextFlush)
      ensures backgroundTasks == old(backgroundTasks) + |requests| - |old(requests)|
    {
      var rest := ackIds;
      while rest != []
        invariant messageAckQueue.Valid() && messageAckQueue.nextFlush == old(messageAckQueue.nextFlush)
        invariant A.RecordRelease(Books(), rest) == A.RecordRelease(old(Books()), ackIds)
        invariant backgroundTasks == old(backgroundTasks) + |requests| - |old(requests)|
        decreases |rest|
      {
        var n := if |rest| <= ACK_IDS_MAX_BATCH_SIZE then |rest| else ACK_IDS_MAX_BATCH_SIZE;
        assert n == |rest| ==> rest[..n] == rest && rest[n..] == [];
        NackBatch(rest[..n]);
        rest := rest[n..];
      }
    }

    method NackBatch(batch: seq<AckId>)
      requires messageAckQueue.Valid()
      modifies this`released, this`requests, this`backgroundTasks, messageAckQueue
      ensures messageAckQueue.Valid() && Books() == A.RecordReleaseBatch(old(Books()), batch)
      ensures messageAckQueue.nextFlush == old(messageAckQueue.nextFlush)
      ensures backgroundTasks == old(backgroundTasks) + |requests| - |old(requests)|
    {
      var serverIds := RemoveAckIds(batch);
      released := released + batch;
      if serverIds != [] {
        PerformRequestInBackground(ModifyAckDeadline(serverIds, 0));
      }
    }

    method RemoveAckIds(batch: seq<AckId>) returns (ids: seq<ServerId>)
      requires messageAckQueue.Valid()
      modifies messageAckQueue
      ensures messageAckQueue.Valid() && messageAckQueue.nextFlush == old(messageAckQueue.nextFlush)
      ensures ids == A.ServerIdsOf(old(messageAckQueue.View()).mapped, batch)
      ensures messageAckQueue.View() == old(messageAckQueue.View()).(mapped :=
        old(messageAckQueue.View()).mapped - Elements(batch))
    {
      ids := [];
      ghost var before := messageAckQueue.View();
      ghost var left := before.mapped;
      assert batch[..0] == [] && batch[0..] == batch;
      for i := 0 to |batch|
        invariant messageAckQueue.Valid() && messageAckQueue.View() == before.(mapped := left)
        invariant messageAckQueue.nextFlush == old(messageAckQueue.nextFlush)
        invariant left == before.mapped - Elements(batch[..i])
        invariant ids + A.ServerIdsOf(left, batch[i..]) == A.ServerIdsOf(before.mapped, batch)
      {
        RemovePrefix(before.mapped, batch, i);
        ServerIdsHead(left, batch, i, ids);
        var id := messageAckQueue.RemoveAckId(batch[i]);
        left := left - {batch[i]};
        ids := ids + if id.Some? then [id.value] else [];
      }
      assert batch[..|batch|] == batch;
    }

    /** Reads the set of keys in some order. */
    ghost method SomeOrder(keys: set<string>) returns (order: seq<string>)
      ensures O.IsOrder(order, keys)
    {
      order := [];
      var left := keys;
      while left != {}
        invariant left <= keys && O.IsOrder(order, keys - left)
        decreases left
      {
        var k :| k in left;
        left := left - {k};
        order := order + [k];
      }
    }

    method FlushAckOrNackChunk(now: nat) returns (flushed: bool)
      requires Valid()
      modifies this`dispensed, this`requests, this`backgroundTasks, messageAckQueue
      ensures Valid() && messageAckQueue.nextFlush == old(messageAckQueue.nextFlush)
      ensures flushed == ChunkReady(old(messageAckQueue.View()), old(messageAckQueue.nextFlush), now)
      ensures View() == if flushed then P.HandleFlushChunk(old(View())) else old(View())
    {
      var chunk := messageAckQueue.TakeChunk(now);
      if chunk.None? {
        return false;
      }
      dispensed := dispensed + chunk.value;
      IssueChunk(chunk.value);
      flushed := true;
    }

    method IssueChunk(chunk: A.Chunk)
      modifies this`requests, this`backgroundTasks
      ensures requests == old(requests) + A.AckMessages(chunk)
      ensures backgroundTasks == old(backgroundTasks) + |A.AckMessages(chunk)|
    {
      var ackRequest, nackRequest := MakeAckMessages(chunk);
      if ackRequest.Some? {
        PerformRequestInBackground(ackRequest.value);
      }
      if nackRequest.Some? {
        PerformRequestInBackground(nackRequest.value);
      }
    }

    method RecomputeMessageLeaseRenewalDurationSecs(p99MessageLatencyMillis: nat)
      modifies this`messageLeaseRenewalDurationSecs
      ensures messageLeaseRenewalDurationSecs == LeaseSecs(flow, p99MessageLatencyMillis)
    {
      var millis := p99MessageLatencyMillis;
      if millis % 1000 != 0 {
        millis := millis + (1000 - millis % 1000);
      }
      messageLeaseRenewalDurationSecs := Clamp(AsU32(millis / 1000), flow.minSecs, flow.maxSecs);
    }

    /** Renews at most ACK_IDS_MAX_BATCH_SIZE expired leases in one request. The latency percentile may be anything. */
    method RenewChunk(now: nat) returns (full: bool, ghost ids: seq<AckId>, ghost times: map<AckId, nat>)
      requires messageAckQueue.Valid() && AllowedLease(flow)
      modifies this`requests, this`backgroundTasks, this`messageLeaseRenewalDurationSecs, messageAckQueue
      ensures messageAckQueue.Valid() && messageAckQueue.View() == A.Renew(old(messageAckQueue.View()), times)
      ensures messageAckQueue.nextFlush == old(messageAckQueue.nextFlush)
      ensures Q.Pass(old(messageAckQueue.View()).mapped, now, ids, times)
      ensures full ==> ids != []
      ensures !full ==> Q.Expired(messageAckQueue.View().mapped, now) == {}
      ensures messageLeaseRenewalDurationSecs > 0 && RenewedInTime(times, now, messageLeaseRenewalDurationSecs)
      ensures var issued := RenewalRequest(Q.NamesOf(old(messageAckQueue.View()).mapped, ids), messageLeaseRenewalDurationSecs);
        requests == old(requests) + issued && backgroundTasks == old(backgroundTasks) + |issued|
    {
      var p99: nat := *;
      RecomputeMessageLeaseRenewalDurationSecs(p99);
      BufferedRange(flow, p99);
      var maxDelay := BufferedMillis(messageLeaseRenewalDurationSecs);
      var chunk;
      chunk, ids, times := messageAckQueue.CollectAckIdsThatNeedToBeRenewed(ACK_IDS_MAX_BATCH_SIZE, maxDelay, now);
      Q.RenewalIsPass(old(messageAckQueue.View()).mapped, now, maxDelay, ids, times, chunk);
      forall id | id in times ensures times[id] + LEASE_RENEWAL_INTERVAL + 1000 < now + messageLeaseRenewalDurationSecs * 1000 {
        Q.RenewalTimes(old(messageAckQueue.View()).mapped, now, maxDelay, ids, times, chunk, id);
        RenewalBeatsExpiry(flow, p99, now, times[id], times[id] + LEASE_RENEWAL_INTERVAL);
      }
      full := |chunk| == ACK_IDS_MAX_BATCH_SIZE;
      if chunk != [] {
        PerformRequestInBackground(ModifyAckDeadline(Q.ResultIds(chunk), messageLeaseRenewalDurationSecs));
      }
    }

    /** Renews every expired lease exactly once, however many requests that takes. */
    method HandleRenewLeases(now: nat) returns (ghost renewed: seq<AckId>, ghost deadlines: map<AckId, nat>)
      requires Valid()
      modifies this`requests, this`backgroundTasks, this`messageLeaseRenewalDurationSecs, messageAckQueue
      ensures Valid() && old(requests) <= requests && P.Renewals(requests[|old(requests)|..])
      ensures messageAckQueue.nextFlush == old(messageAckQueue.nextFlush)
      ensures View() == P.HandleRenewLeases(old(View()), deadlines, requests[|old(requests)|..])
      ensures Q.Pass(old(messageAckQueue.View()).mapped, now, renewed, deadlines)
      ensures deadlines.Keys == Q.Expired(old(messageAckQueue.View()).mapped, now)
      ensures Q.Expired(messageAckQueue.View().mapped, now) == {}
      ensures RequestIds(requests[|old(requests)|..]) == Q.NamesOf(old(messageAckQueue.View()).mapped, renewed)
    {
      ghost var rs;
      renewed, deadlines, rs := RenewAllChunks(now);
      Q.PassComplete(old(messageAckQueue.View()), now, renewed, deadlines);
      assert requests[|old(requests)|..] == rs;
    }

    method RenewAllChunks(now: nat)
      returns (ghost renewed: seq<AckId>, ghost deadlines: map<AckId, nat>, ghost rs: seq<Request>)
      requires messageAckQueue.Valid() && AllowedLease(flow)
      modifies this`requests, this`backgroundTasks, this`messageLeaseRenewalDurationSecs, messageAckQueue
      ensures messageAckQueue.Valid() && messageAckQueue.View() == A.Renew(old(messageAckQueue.View()), deadlines)
      ensures messageAckQueue.nextFlush == old(messageAckQueue.nextFlush)
      ensures Q.Pass(old(messageAckQueue.View()).mapped, now, renewed, deadlines)
      ensures Q.Expired(messageAckQueue.View().mapped, now) == {}
      ensures requests == old(requests) + rs && P.Renewals(rs) && backgroundTasks == old(backgroundTasks) + |rs|
      ensures RequestIds(rs) == Q.NamesOf(old(messageAckQueue.View()).mapped, renewed)
    {
      ghost var before := messageAckQueue.View();
      renewed, deadlines, rs := [], map[], [];
      Q.RenewNone(before);
      var more := true;
      while more
        invariant messageAckQueue.Valid() && messageAckQueue.View() == A.Renew(before, deadlines)
        invariant messageAckQueue.nextFlush == old(messageAckQueue.nextFlush)
        invariant Q.Pass(before.mapped, now, renewed, deadlines)
        invariant requests == old(requests) + rs && P.Renewals(rs)
        invariant backgroundTasks == old(backgroundTasks) + |rs|
        invariant RequestIds(rs) == Q.NamesOf(before.mapped, renewed)
        invariant !more ==> Q.Expired(messageAckQueue.View().mapped, now) == {}
        decreases more, Q.Expired(messageAckQueue.View().mapped, now)
      {
        ghost var mid := messageAckQueue.View();
        ghost var ids, times;
        more, ids, times := RenewChunk(now);
        Q.PassExtend(before, now, renewed, deadlines, ids, times);
        Q.ExpiredAfter(mid, now, ids, times);
        IssueMore(old(requests), rs, Q.NamesOf(mid.mapped, ids), messageLeaseRenewalDurationSecs);
        rs := rs + RenewalRequest(Q.NamesOf(mid.mapped, ids), messageLeaseRenewalDurationSecs);
        renewed, deadlines := renewed + ids, deadlines + times;
        assert ids != [] ==> ids[0] in times && ids[0] in Q.Expired(mid.mapped, now);
      }
    }

    method HandleStreamingPullError()
      requires Valid() && !channel.Closed?
      modifies this`channel
      ensures Valid() && View() == old(View()) && channel == Connecting
    {
      channel := Connecting;
    }

    method ShouldStop() returns (stop: bool)
      ensures stop == P.ShouldStop(View())
    {
      stop := gracefulStop && messagesInFlight.messagesInFlight == map[]
              && messageAckQueue.currentChunk == [] && messageAckQueue.fullChunks == []
              && backgroundTasks == 0;
    }

    // ---------------------------------------------------------------- main loop

    /** Hands the messages that a handler dispatched to the message handler, guards included. */
    method HandOver(from: nat)
      requires from <= |handled|
      modifies this`guards
      ensures guards == old(guards) + P.IdsOf(handled[from..])
    {
      guards := guards + set m | m in handled[from..] :: m.id;
    }

    method OnResponse(batch: seq<Received>, now: nat) returns (ghost action: Option<P.Action>)
      requires Valid()
      modifies this, messagesOnHold, messagesInFlight, messageAckQueue
      ensures Valid() && Took(old(System()), action, System())
      ensures Answers(old(System()), old(messageAckQueue.nextFlush), Responded(batch, now), action, messageAckQueue.nextFlush)
    {
      var stop := ShouldStop();
      if stop || channel.Closed? {
        return None;
      }
      var from := |handled|;
      HandleStreamingPullResponse(batch, now);
      DispatchedGrows(old(View()), batch, now);
      HandOver(from);
      action := Some(P.Respond(batch, now));
    }

    method OnVerdict(v: AckOrNack<AckId>, now: nat)
      requires Valid()
      modifies this, messagesOnHold, messagesInFlight, messageAckQueue
      ensures Valid() && receiver == old(receiver)
      ensures View() == P.HandleVerdict(old(View()), v)
      ensures messageAckQueue.nextFlush == VerdictFlush(old(messageAckQueue.View()), old(messageAckQueue.nextFlush), v, now)
      ensures guards == old(guards) + P.IdsOf(P.Handed(old(View()), View()))
    {
      var from := |handled|;
      VerdictGrows(View(), v);
      HandleAckOrNack(v, now);
      HandOver(from);
    }

    method HandleMessage(message: P.ManagerMessage, now: nat) returns (ghost order: seq<string>)
      requires Valid()
      modifies this, messagesOnHold, messagesInFlight, messageAckQueue
      ensures Valid() && receiver == old(receiver)
      ensures O.IsOrder(order, old(messagesOnHold.pendingOrderedMessages).Keys)
      ensures View() == P.HandleMessage(old(View()), message, order)
      ensures messageAckQueue.nextFlush == MessageFlush(old(messageAckQueue.View()), old(messageAckQueue.nextFlush), message, now)
      ensures guards == old(guards) + P.IdsOf(P.Handed(old(View()), View()))
    {
      match message {
        case Verdict(v) =>
          order := SomeOrder(messagesOnHold.pendingOrderedMessages.Keys);
          OnVerdict(v, now);
        case GracefulStop =>
          var accepted;
          accepted, order := HandleGracefulStop();
      }
    }

    method OnMail(now: nat) returns (ghost action: Option<P.Action>)
      requires Valid()
      modifies this, messagesOnHold, messagesInFlight, messageAckQueue
      ensures Valid() && Took(old(System()), action, System())
      ensures Answers(old(System()), old(messageAckQueue.nextFlush), MailArrived(now), action, messageAckQueue.nextFlush)
    {
      var stop := ShouldStop();
      if stop || receiver == [] {
        return None;
      }
      var message := receiver[0];
      receiver := receiver[1..];
      ghost var order := HandleMessage(message, now);
      action := Some(P.Receive(order));
    }

    method OnTick(now: nat) returns (ghost action: Option<P.Action>)
      requires Valid()
      modifies this, messageAckQueue
      ensures Valid() && Took(old(System()), action, System())
      ensures Answers(old(System()), old(messageAckQueue.nextFlush), LeaseTick(now), action, messageAckQueue.nextFlush)
    {
      var stop := ShouldStop();
      if stop {
        return None;
      }
      ghost var renewed, deadlines := HandleRenewLeases(now);
      assert RenewsDue(old(View()), now, deadlines, requests[|old(requests)|..], renewed);
      action := Some(P.RenewLeases(deadlines, requests[|old(requests)|..]));
    }

    method OnChunkDue(now: nat) returns (ghost action: Option<P.Action>)
      requires Valid()
      modifies this, messageAckQueue
      ensures Valid() && Took(old(System()), action, System())
      ensures Answers(old(System()), old(messageAckQueue.nextFlush), ChunkDue(now), action, messageAckQueue.nextFlush)
    {
      var stop := ShouldStop();
      if stop {
        return None;
      }
      var flushed := FlushAckOrNackChunk(now);
      action := if flushed then Some(P.FlushChunk) else None;
    }

    /** What the handlers' guards and the owner of the stop handle put in the mailbox. */
    method OnOutside(event: Event) returns (ghost action: Option<P.Action>)
      requires Valid() && (event.Settled? || event.StopAsked?)
      modifies this`receiver, this`guards
      ensures Valid() && Took(old(System()), action, System())
      ensures Answers(old(System()), old(messageAckQueue.nextFlush), event, action, messageAckQueue.nextFlush)
    {
      action := None;
      match event {
        case Settled(v) =>
          if v.id in guards {
            receiver, guards := receiver + [P.Verdict(v)], guards - {v.id};
            action := Some(P.Settle(v));
          }
        case StopAsked =>
          receiver := receiver + [P.GracefulStop];
          action := Some(P.AskStop);
      }
    }

    method OnStreamFailed() returns (ghost action: Option<P.Action>)
      requires Valid()
      modifies this
      ensures Valid() && Took(old(System()), action, System())
      ensures Answers(old(System()), old(messageAckQueue.nextFlush), StreamFailed, action, messageAckQueue.nextFlush)
    {
      var stop := ShouldStop();
      if stop || channel.Closed? {
        return None;
      }
      HandleStreamingPullError();
      action := Some(P.StreamError);
    }

    method OnTaskDone() returns (ghost action: Option<P.Action>)
      requires Valid()
      modifies this`backgroundTasks
      ensures Valid() && Took(old(System()), action, System())
      ensures Answers(old(System()), old(messageAckQueue.nextFlush), TaskDone, action, messageAckQueue.nextFlush)
    {
      var stop := ShouldStop();
      if stop || backgroundTasks == 0 {
        return None;
      }
      backgroundTasks := backgroundTasks - 1;
      action := Some(P.BackgroundDone);
    }

    method OnEvent(event: Event) returns (ghost action: Option<P.Action>)
      requires Valid()
      modifies this, messagesOnHold, messagesInFlight, messageAckQueue
      ensures Valid() && Took(old(System()), action, System())
      ensures Answers(old(System()), old(messageAckQueue.nextFlush), event, action, messageAckQueue.nextFlush)
    {
      match event {
        case Responded(batch, now) => action := OnResponse(batch, now);
        case MailArrived(now) => action := OnMail(now);
        case ChunkDue(now) => action := OnChunkDue(now);
        case LeaseTick(now) => action := OnTick(now);
        case StreamFailed => action := OnStreamFailed();
        case TaskDone => action := OnTaskDone();
        case MetricsTick =>
          var stop := ShouldStop();
          action := if stop then None else Some(P.ReportMetrics);
        case _ => action := OnOutside(event);
      }
    }

    /**
      The main loop on any sequence of events. What it did is a run of the protocol:
      `actions` is that run, so every theorem about runs describes this loop. Its actions
      are the answers to the events, in their order, and none is left out.
    */
    method MainLoop(events: seq<Event>) returns (stopped: bool, ghost actions: seq<P.Action>, ghost taken: seq<Option<P.Action>>)
      requires Valid() && P.SystemInv(System())
      modifies this, messagesOnHold, messagesInFlight, messageAckQueue
      ensures Valid() && P.SystemInv(System())
      ensures P.Legal(old(System()), actions) && System() == P.Run(old(System()), actions)
      ensures |taken| == |events| && actions == Done(taken)
      ensures Answered(old(System()), old(messageAckQueue.nextFlush), events, taken, messageAckQueue.nextFlush)
      ensures stopped == P.ShouldStop(View())
    {
      actions, taken := [], [];
      ghost var start, startFlush := System(), messageAckQueue.nextFlush;
      for i := 0 to |events|
        invariant Valid() && P.SystemInv(System())
        invariant Ran(start, startFlush, events[..i], taken, actions, System(), messageAckQueue.nextFlush)
      {
        ghost var before, flush := System(), messageAckQueue.nextFlush;
        ghost var action := OnEvent(events[i]);
        RanMore(start, startFlush, events, i, taken, actions, before, flush, action, System(), messageAckQueue.nextFlush);
        taken := taken + [action];
        actions := if action.Some? then actions + [action.value] else actions;
      }
      assert events[..|events|] == events;
      stopped := ShouldStop();
    }
  }

  /** The actions taken on the events are a legal run from one state to the other. */
  ghost predicate Ran(s: P.System, nextFlush: nat, events: seq<Event>, taken: seq<Option<P.Action>>, actions: seq<P.Action>,
                      t: P.System, nextFlush': nat) {
    && |taken| == |events| && actions == Done(taken)
    && P.Legal(s, actions) && t == P.Run(s, actions)
    && Answered(s, nextFlush, events, taken, nextFlush')
  }

  lemma RanMore(s: P.System, nextFlush: nat, events: seq<Event>, i: nat, taken: seq<Option<P.Action>>, actions: seq<P.Action>,
                t: P.System, mid: nat, action: Option<P.Action>, t': P.System, nextFlush': nat)
    requires i < |events| && Ran(s, nextFlush, events[..i], taken, actions, t, mid) && P.SystemInv(t)
    requires Took(t, action, t') && Answers(t, mid, events[i], action, nextFlush')
    ensures Ran(s, nextFlush, events[..i + 1], taken + [action],
                if action.Some? then actions + [action.value] else actions, t', nextFlush')
    ensures P.SystemInv(t')
  {
    AnsweredMore(s, nextFlush, events, i, taken, mid, action, nextFlush');
    if action.Some? {
      assert (actions + [action.value])[..|actions|] == actions;
      P.StepKeeps(t, action.value);
    }
  }

  lemma AnsweredMore(s: P.System, nextFlush: nat, events: seq<Event>, i: nat, taken: seq<Option<P.Action>>, mid: nat,
                     action: Option<P.Action>, nextFlush': nat)
    requires i < |events| && |taken| == i && Answered(s, nextFlush, events[..i], taken, mid)
    requires Answers(P.Run(s, Done(taken)), mid, events[i], action, nextFlush')
    ensures Answered(s, nextFlush, events[..i + 1], taken + [action], nextFlush')
    ensures Done(taken + [action]) == if action.None? then Done(taken) else Done(taken) + [action.value]
  {
    assert (taken + [action])[..i] == taken && events[..i + 1][..i] == events[..i];
  }

  /** Either nothing happened, or an enabled action of the protocol did. */
  ghost predicate Took(s: P.System, action: Option<P.Action>, s': P.System) {
    match action
    case None => s' == s
    case Some(a) => P.Enabled(s, a) && s' == P.Step(s, a)
  }

  lemma {:induction false} FlushGrows(s: O.Sched)
    ensures s.dispatched <= O.Flush(s).dispatched
    decreases |s.hold.ready|
  {
    if O.CanDispatch(s) {
      FlushGrows(O.DispatchOne(s));
    }
  }

  lemma DispatchedGrows(m: P.Manager, batch: seq<Received>, now: nat)
    ensures m.sched.dispatched <= P.HandleResponse(m, batch, now).sched.dispatched
  {
    P.StoreAllFrame(m, batch, now);
    FlushGrows(P.StoreAll(m, batch, now).sched);
  }

  lemma VerdictGrows(m: P.Manager, v: AckOrNack<AckId>)
    ensures m.sched.dispatched <= P.HandleVerdict(m, v).sched.dispatched
  {
    P.FinishIds(m.sched, v.id);
    FlushGrows(O.Finish(m.sched, v.id));
  }
}
