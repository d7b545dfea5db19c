/**
  The streaming pull manager as a state machine: one step per action of its main
  loop, together with the handler that settles messages and the channel that
  carries verdicts back. The theorems at the end hold for every run.
*/
module PullProtocol {
  import opened Options
  import opened PullTypes
  import opened Counting
  import O = PullOrdering
  import A = PullAcks

  /** open: the Pub/Sub stream can still deliver; background: requests still running. */
  datatype Manager = Manager(sched: O.Sched, books: A.Books, open: bool, background: nat)

  datatype ManagerMessage = Verdict(verdict: AckOrNack<AckId>) | GracefulStop

  /** outside: dispatched messages whose guard the handler has not used yet. */
  datatype System = System(manager: Manager, mailbox: seq<ManagerMessage>, outside: set<AckId>)

  /** Milliseconds from receipt until the first lease renewal. */
  const FIRST_RENEWAL_DELAY: nat := 1000

  // ---------------------------------------------------------------- the manager's handlers

  function StoreOne(m: Manager, r: Received, now: nat): Manager {
    match r.body
    case None => m
    case Some(b) =>
      var id := m.books.queue.lastId + 1;
      m.(books := A.RecordStore(m.books, r.serverId, now, now + FIRST_RENEWAL_DELAY),
         sched := O.Accept(m.sched, Message(id, OrderingKey(b.orderingKey), b.size)))
  }

  function StoreAll(m: Manager, batch: seq<Received>, now: nat): Manager {
    if batch == [] then m
    else StoreOne(StoreAll(m, batch[..|batch| - 1], now), batch[|batch| - 1], now)
  }

  function FlushReady(m: Manager): Manager {
    m.(sched := O.Flush(m.sched))
  }

  function HandleResponse(m: Manager, batch: seq<Received>, now: nat): Manager {
    FlushReady(StoreAll(m, batch, now))
  }

  function HandleVerdict(m: Manager, a: AckOrNack<AckId>): Manager {
    FlushReady(Concluded(m, a))
  }

  /** Closes the stream and nacks everything on hold. A second request changes nothing. */
  function HandleGracefulStop(m: Manager, order: seq<string>): Manager {
    if m.sched.stopping then m
    else
      var books := A.RecordRelease(m.books, O.Ids(O.Drained(m.sched.hold, order)));
      Manager(O.Drain(m.sched), books, false,
              m.background + |books.ledger.requests| - |m.books.ledger.requests|)
  }

  function HandleFlushChunk(m: Manager): Manager {
    m.(books := A.RecordFlush(m.books), background := m.background + |A.AckMessages(A.NextChunk(m.books.queue))|)
  }

  function HandleRenewLeases(m: Manager, deadlines: map<AckId, nat>, rs: seq<Request>): Manager {
    m.(books := A.RecordRenew(m.books, deadlines, rs), background := m.background + |rs|)
  }

  /** The main loop exits when a stop was accepted and nothing is in flight, queued or running. */
  predicate ShouldStop(m: Manager) {
    && m.sched.stopping
    && m.sched.flight == map[]
    && A.NothingQueued(m.books.queue)
    && m.background == 0
  }

  // ---------------------------------------------------------------- the system

  /** An action carries the choices that the code leaves to the clock, the hash map or the peer. */
  datatype Action =
    | Settle(verdict: AckOrNack<AckId>)
    | AskStop
    | Respond(batch: seq<Received>, now: nat)
    | StreamError
    | Receive(order: seq<string>)
    | FlushChunk
    | RenewLeases(deadlines: map<AckId, nat>, renewals: seq<Request>)
    | ReportMetrics
    | BackgroundDone

  predicate FromOutside(a: Action) {
    a.Settle? || a.AskStop?
  }

  ghost predicate Renewals(rs: seq<Request>) {
    forall i :: 0 <= i < |rs| ==> rs[i].ModifyAckDeadline? && rs[i].secs > 0
  }

  /** When an action can happen. The actions of the main loop stop once it exits. */
  ghost predicate Enabled(s: System, a: Action) {
    && (FromOutside(a) || !ShouldStop(s.manager))
    && match a
       case Settle(v) => v.id in s.outside
       case AskStop => true
       case Respond(_, _) => s.manager.open
       case StreamError => s.manager.open
       case Receive(order) => s.mailbox != [] && O.IsOrder(order, s.manager.sched.hold.pending.Keys)
       case FlushChunk => !A.NothingQueued(s.manager.books.queue)
       case RenewLeases(_, rs) => Renewals(rs)
       case ReportMetrics => true
       case BackgroundDone => s.manager.background > 0
  }

  /** The messages that went to the handler between two states of the manager. */
  function Handed(m: Manager, m': Manager): seq<Message> {
    if |m.sched.dispatched| <= |m'.sched.dispatched| then m'.sched.dispatched[|m.sched.dispatched|..] else []
  }

  function IdsOf(ms: seq<Message>): set<AckId> {
    set m | m in ms :: m.id
  }

  function Dispatching(s: System, m: Manager): System {
    s.(manager := m, outside := s.outside + IdsOf(Handed(s.manager, m)))
  }

  function HandleMessage(m: Manager, message: ManagerMessage, order: seq<string>): Manager {
    match message
    case Verdict(v) => HandleVerdict(m, v)
    case GracefulStop => HandleGracefulStop(m, order)
  }

  function Step(s: System, a: Action): System {
    match a
    case Settle(v) => s.(mailbox := s.mailbox + [Verdict(v)], outside := s.outside - {v.id})
    case AskStop => s.(mailbox := s.mailbox + [GracefulStop])
    case Respond(batch, now) => Dispatching(s, HandleResponse(s.manager, batch, now))
    case StreamError => s
    case Receive(order) =>
      if s.mailbox == [] then s
      else Dispatching(s.(mailbox := s.mailbox[1..]), HandleMessage(s.manager, s.mailbox[0], order))
    case FlushChunk => s.(manager := HandleFlushChunk(s.manager))
    case RenewLeases(deadlines, rs) => s.(manager := HandleRenewLeases(s.manager, deadlines, rs))
    case ReportMetrics => s
    case BackgroundDone =>
      s.(manager := s.manager.(background := if s.manager.background > 0 then s.manager.background - 1 else 0))
  }

  function InitialManager(limit: nat, maxChunk: nat): Manager {
    Manager(O.Sched(limit, O.EMPTY_HOLD, map[], false, [], []),
            A.Books(A.AckQueue(maxChunk, 0, map[], [], []), A.Ledger([], [], [], [], [])),
            true, 0)
  }

  function Initial(limit: nat, maxChunk: nat): System {
    System(InitialManager(limit, maxChunk), [], {})
  }

  function Run(s: System, actions: seq<Action>): System {
    if actions == [] then s else Step(Run(s, actions[..|actions| - 1]), actions[|actions| - 1])
  }

  ghost predicate Legal(s: System, actions: seq<Action>) {
    actions != [] ==>
      && Legal(s, actions[..|actions| - 1])
      && Enabled(Run(s, actions[..|actions| - 1]), actions[|actions| - 1])
  }

  // ---------------------------------------------------------------- the manager's invariant

  /** An id is mapped exactly while its message is on hold or in flight. */
  ghost predicate Linked(m: Manager, id: AckId) {
    id in m.books.queue.mapped <==> id in O.HoldIds(m.sched.hold) || id in m.sched.flight
  }

  ghost predicate CoreInv(m: Manager) {
    && O.SchedInv(m.sched)
    && A.BooksInv(m.books)
    && |m.sched.received| == m.books.queue.lastId
    && (forall id :: Linked(m, id))
    && (m.sched.stopping ==> !m.open)
  }

  ghost predicate ManagerInv(m: Manager) {
    CoreInv(m) && O.Saturated(m.sched)
  }

  lemma StoreOneKeeps(m: Manager, r: Received, now: nat)
    requires CoreInv(m) && m.open
    ensures CoreInv(StoreOne(m, r, now)) && StoreOne(m, r, now).open
  {
    if r.body.Some? {
      var t := StoreOne(m, r, now);
      var message := t.sched.received[|m.sched.received|];
      O.AcceptKeeps(m.sched, message);
      A.StoreKeeps(m.books, r.serverId, now, now + FIRST_RENEWAL_DELAY);
      O.PushIds(m.sched.hold, message);
      forall id ensures Linked(t, id) {
        assert Linked(m, id);
      }
    }
  }

  lemma {:induction false} StoreAllKeeps(m: Manager, batch: seq<Received>, now: nat)
    requires CoreInv(m) && m.open
    ensures CoreInv(StoreAll(m, batch, now)) && StoreAll(m, batch, now).open
  {
    if batch != [] {
      var init := batch[..|batch| - 1];
      StoreAllKeeps(m, init, now);
      StoreOneKeeps(StoreAll(m, init, now), batch[|batch| - 1], now);
    }
  }

  /** Moving the front of the ready queue into flight moves its ids too. */
  lemma FrontMoves(h: O.Hold, n: nat, id: AckId)
    requires n <= |h.ready|
    ensures id in O.HoldIds(h) <==> O.HasId(h.ready[..n], id) || id in O.HoldIds(h.(ready := h.ready[n..]))
  {
    var h' := h.(ready := h.ready[n..]);
    assert h.ready == h.ready[..n] + h.ready[n..];
    if id in O.HoldIds(h) {
      var m := O.HolderOf(h, id);
      if m in h.ready[..n] {
        var i :| 0 <= i < n && h.ready[..n][i] == m;
        assert h.ready[..n][i].id == id;
      } else {
        assert O.Holds(h', m);
        O.HoldsId(h', m);
      }
    }
    if O.HasId(h.ready[..n], id) {
      var i :| 0 <= i < n && h.ready[..n][i].id == id;
      assert O.Holds(h, h.ready[i]);
      O.HoldsId(h, h.ready[i]);
    }
    if id in O.HoldIds(h') {
      var m := O.HolderOf(h', id);
      assert O.Holds(h, m);
      O.HoldsId(h, m);
    }
  }

  lemma FlushReadyKeeps(m: Manager)
    requires CoreInv(m)
    ensures ManagerInv(FlushReady(m))
  {
    var t := FlushReady(m);
    O.FlushKeeps(m.sched);
    O.FlushTakesFront(m.sched);
    forall id ensures Linked(t, id) {
      assert Linked(m, id);
      FrontMoves(m.sched.hold, O.BatchSize(m.sched), id);
    }
  }

  lemma FinishIds(s: O.Sched, id: AckId)
    ensures O.HoldIds(O.Finish(s, id).hold) == O.HoldIds(s.hold)
    ensures O.Finish(s, id).flight == s.flight - {id}
    ensures O.Finish(s, id).received == s.received && O.Finish(s, id).dispatched == s.dispatched
  {
    if id in s.flight && s.flight[id].key.Some? {
      O.ActivateIds(s.hold, s.flight[id].key.value);
    }
  }

  /** The manager after a verdict was queued and its message finished, before anything new is dispatched. */
  function Concluded(m: Manager, a: AckOrNack<AckId>): Manager {
    m.(books := A.RecordEnqueue(m.books, a), sched := O.Finish(m.sched, a.id))
  }

  lemma ConcludedLinked(m: Manager, a: AckOrNack<AckId>, id: AckId)
    requires O.SchedInv(m.sched) && a.id in m.sched.flight
    requires Linked(m, a.id) && Linked(m, id)
    ensures Linked(Concluded(m, a), id)
  {
    FinishIds(m.sched, a.id);
    O.HoldDisjoint(m.sched);
    assert Concluded(m, a).books.queue.mapped == m.books.queue.mapped - {a.id};
  }

  lemma ConcludedKeeps(m: Manager, a: AckOrNack<AckId>)
    requires CoreInv(m) && a.id in m.sched.flight
    ensures CoreInv(Concluded(m, a))
  {
    O.FinishKeeps(m.sched, a.id);
    A.EnqueueKeeps(m.books, a);
    FinishIds(m.sched, a.id);
    forall id ensures Linked(Concluded(m, a), id) {
      assert Linked(m, a.id) && Linked(m, id);
      ConcludedLinked(m, a, id);
    }
  }

  lemma HandleVerdictKeeps(m: Manager, a: AckOrNack<AckId>)
    requires CoreInv(m) && a.id in m.sched.flight
    ensures ManagerInv(HandleVerdict(m, a))
  {
    ConcludedKeeps(m, a);
    FlushReadyKeeps(Concluded(m, a));
  }

  lemma HandleGracefulStopKeeps(m: Manager, order: seq<string>)
    requires CoreInv(m) && !m.sched.stopping && O.IsOrder(order, m.sched.hold.pending.Keys)
    ensures ManagerInv(HandleGracefulStop(m, order))
  {
    var t := HandleGracefulStop(m, order);
    var ids := O.Ids(O.Drained(m.sched.hold, order));
    O.DrainKeeps(m.sched);
    O.DrainedOnce(m.sched, order);
    O.HoldDisjoint(m.sched);
    forall i | 0 <= i < |ids| ensures ids[i] in m.books.queue.mapped {
      assert ids[i] in ids;
      assert Linked(m, ids[i]);
    }
    A.ReleaseKeeps(m.books, ids);
    forall id ensures Linked(t, id) {
      assert Linked(m, id);
      assert id in ids <==> id in O.HoldIds(m.sched.hold);
    }
  }

  // ---------------------------------------------------------------- the system's invariant

  /** How many verdicts on an id the manager has not taken yet. */
  function InMail(mailbox: seq<ManagerMessage>, id: AckId): nat {
    Count(mailbox, Verdict(Ack(id))) + Count(mailbox, Verdict(Nack(id)))
  }

  /** A message in flight is with the handler, or exactly one verdict on it is under way. */
  ghost predicate MailOk(s: System, id: AckId) {
    InMail(s.mailbox, id) + (if id in s.outside then 1 else 0) == if id in s.manager.sched.flight then 1 else 0
  }

  ghost predicate SystemInv(s: System) {
    ManagerInv(s.manager) && forall id :: MailOk(s, id)
  }

  lemma {:induction false} StoreAllFrame(m: Manager, batch: seq<Received>, now: nat)
    ensures var t := StoreAll(m, batch, now);
      t.sched.flight == m.sched.flight && t.sched.dispatched == m.sched.dispatched
  {
    if batch != [] {
      StoreAllFrame(m, batch[..|batch| - 1], now);
    }
  }

  /** What a flush adds to flight is what it hands to the handler, and none of it was in flight. */
  lemma FlushHands(m: Manager, id: AckId)
    requires CoreInv(m)
    ensures var t := FlushReady(m);
      && (id in t.sched.flight <==> id in m.sched.flight || id in IdsOf(Handed(m, t)))
      && (id in m.sched.flight ==> id !in IdsOf(Handed(m, t)))
  {
    var t, n := FlushReady(m), O.BatchSize(m.sched);
    O.FlushTakesFront(m.sched);
    var batch := m.sched.hold.ready[..n];
    assert Handed(m, t) == batch;
    assert id in IdsOf(batch) <==> O.HasId(batch, id);
    O.ReadyIsFresh(m.sched);
  }

  lemma RespondMail(s: System, batch: seq<Received>, now: nat, id: AckId)
    requires CoreInv(s.manager) && s.manager.open && MailOk(s, id)
    ensures MailOk(Step(s, Respond(batch, now)), id)
  {
    StoreAllKeeps(s.manager, batch, now);
    StoreAllFrame(s.manager, batch, now);
    var u := StoreAll(s.manager, batch, now);
    FlushHands(u, id);
    assert Handed(s.manager, FlushReady(u)) == Handed(u, FlushReady(u));
  }

  lemma MailHead(s: System, id: AckId)
    requires s.mailbox != []
    ensures InMail(s.mailbox, id)
         == InMail(s.mailbox[1..], id) + if s.mailbox[0].Verdict? && s.mailbox[0].verdict.id == id then 1 else 0
  {
    var head := s.mailbox[0];
    assert s.mailbox == [head] + s.mailbox[1..];
    CountConcat([head], s.mailbox[1..], Verdict(Ack(id)));
    CountConcat([head], s.mailbox[1..], Verdict(Nack(id)));
    CountAppend([], head, Verdict(Ack(id)));
    CountAppend([], head, Verdict(Nack(id)));
    assert [] + [head] == [head];
  }

  lemma ReceiveVerdictMail(s: System, order: seq<string>, id: AckId)
    requires s.mailbox != [] && s.mailbox[0].Verdict?
    requires CoreInv(s.manager) && s.mailbox[0].verdict.id in s.manager.sched.flight && MailOk(s, id)
    ensures MailOk(Step(s, Receive(order)), id)
  {
    var a := s.mailbox[0].verdict;
    var u := Concluded(s.manager, a);
    ConcludedKeeps(s.manager, a);
    FinishIds(s.manager.sched, a.id);
    FlushHands(u, id);
    assert Handed(s.manager, FlushReady(u)) == Handed(u, FlushReady(u));
    MailHead(s, id);
  }

  lemma ReceiveStopMail(s: System, order: seq<string>, id: AckId)
    requires s.mailbox != [] && s.mailbox[0].GracefulStop? && MailOk(s, id)
    ensures MailOk(Step(s, Receive(order)), id)
  {
    MailHead(s, id);
    assert Handed(s.manager, HandleGracefulStop(s.manager, order)) == [];
  }

  lemma SettleMail(s: System, v: AckOrNack<AckId>, id: AckId)
    requires v.id in s.outside && MailOk(s, id)
    ensures MailOk(Step(s, Settle(v)), id)
  {
    CountAppend(s.mailbox, Verdict(v), Verdict(Ack(id)));
    CountAppend(s.mailbox, Verdict(v), Verdict(Nack(id)));
  }

  lemma AskStopMail(s: System, id: AckId)
    requires MailOk(s, id)
    ensures MailOk(Step(s, AskStop), id)
  {
    CountAppend(s.mailbox, GracefulStop, Verdict(Ack(id)));
    CountAppend(s.mailbox, GracefulStop, Verdict(Nack(id)));
  }

  lemma RespondKeeps(s: System, batch: seq<Received>, now: nat)
    requires SystemInv(s) && s.manager.open
    ensures SystemInv(Step(s, Respond(batch, now)))
  {
    StoreAllKeeps(s.manager, batch, now);
    FlushReadyKeeps(StoreAll(s.manager, batch, now));
    forall id ensures MailOk(Step(s, Respond(batch, now)), id) {
      assert MailOk(s, id);
      RespondMail(s, batch, now, id);
    }
  }

  lemma HeadInFlight(s: System)
    requires SystemInv(s) && s.mailbox != [] && s.mailbox[0].Verdict?
    ensures s.mailbox[0].verdict.id in s.manager.sched.flight
  {
    var id := s.mailbox[0].verdict.id;
    assert MailOk(s, id);
    MailHead(s, id);
  }

  lemma ReceiveKeeps(s: System, order: seq<string>)
    requires SystemInv(s) && s.mailbox != [] && O.IsOrder(order, s.manager.sched.hold.pending.Keys)
    ensures SystemInv(Step(s, Receive(order)))
  {
    if s.mailbox[0].Verdict? {
      HeadInFlight(s);
      HandleVerdictKeeps(s.manager, s.mailbox[0].verdict);
      forall id ensures MailOk(Step(s, Receive(order)), id) {
        assert MailOk(s, id);
        ReceiveVerdictMail(s, order, id);
      }
    } else {
      if !s.manager.sched.stopping {
        HandleGracefulStopKeeps(s.manager, order);
      }
      forall id ensures MailOk(Step(s, Receive(order)), id) {
        assert MailOk(s, id);
        ReceiveStopMail(s, order, id);
      }
    }
  }

  /** A step that changes neither scheduling, mapped ids nor mail. */
  lemma BookStepKeeps(s: System, m: Manager)
    requires SystemInv(s)
    requires m.sched == s.manager.sched && m.open == s.manager.open && A.BooksInv(m.books)
    requires m.books.queue.mapped.Keys == s.manager.books.queue.mapped.Keys
    requires m.books.queue.lastId == s.manager.books.queue.lastId
    ensures SystemInv(s.(manager := m))
  {
    forall id ensures Linked(m, id) {
      assert Linked(s.manager, id);
      assert id in m.books.queue.mapped <==> id in m.books.queue.mapped.Keys;
    }
    forall id ensures MailOk(s.(manager := m), id) {
      assert MailOk(s, id);
    }
  }

  /** Every step the system can take keeps the invariant. */
  lemma StepKeeps(s: System, a: Action)
    requires SystemInv(s) && Enabled(s, a)
    ensures SystemInv(Step(s, a))
  {
    match a
    case Settle(v) =>
      forall id ensures MailOk(Step(s, a), id) {
        assert MailOk(s, id);
        SettleMail(s, v, id);
      }
    case AskStop =>
      forall id ensures MailOk(Step(s, a), id) {
        assert MailOk(s, id);
        AskStopMail(s, id);
      }
    case Respond(batch, now) => RespondKeeps(s, batch, now);
    case Receive(order) => ReceiveKeeps(s, order);
    case FlushChunk =>
      A.FlushChunkKeeps(s.manager.books);
      BookStepKeeps(s, Step(s, a).manager);
    case RenewLeases(deadlines, rs) =>
      A.RenewKeeps(s.manager.books, deadlines, rs);
      BookStepKeeps(s, Step(s, a).manager);
    case BackgroundDone => BookStepKeeps(s, Step(s, a).manager);
    case StreamError =>
    case ReportMetrics =>
  }

  lemma InitialInv(limit: nat, maxChunk: nat)
    requires maxChunk > 0
    ensures SystemInv(Initial(limit, maxChunk))
  {
    var s := Initial(limit, maxChunk);
    var l := s.manager.books.ledger;
    forall id ensures MailOk(s, id) && Linked(s.manager, id) && A.SettledOnce(l, {}, id) {
    }
    assert s.manager.books.queue.mapped.Keys == {};
    assert O.Lengths(map[]) == map[];
  }

  /** The invariant holds after every run. */
  lemma {:induction false} RunKeeps(s: System, actions: seq<Action>)
    requires SystemInv(s) && Legal(s, actions)
    ensures SystemInv(Run(s, actions))
  {
    if actions != [] {
      RunKeeps(s, actions[..|actions| - 1]);
      StepKeeps(Run(s, actions[..|actions| - 1]), actions[|actions| - 1]);
    }
  }
}
