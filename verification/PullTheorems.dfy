/** What the streaming pull manager promises over every run, and exactly when it makes progress. */
module PullTheorems {
  import opened Options
  import opened PullTypes
  import opened Counting
  import opened PullProtocol
  import O = PullOrdering
  import A = PullAcks

  /**
    Exactly-once settlement. In every run, each delivery of Pub/Sub id u is mapped,
    waiting in a chunk, or in exactly one ack or nack request, and each internal id
    is settled once if and only if it is no longer mapped.
  */
  lemma ExactlyOnceSettlement(limit: nat, maxChunk: nat, actions: seq<Action>, u: ServerId, id: AckId)
    requires maxChunk > 0 && Legal(Initial(limit, maxChunk), actions)
    ensures var b := Run(Initial(limit, maxChunk), actions).manager.books;
      && Count(b.ledger.serverIds, u)
         == A.HeldCount(b.ledger.serverIds, b.queue.mapped.Keys, u) + A.VerdictCount(A.Waiting(b.queue), u)
            + A.AckedCount(b.ledger.requests, u) + A.NackedCount(b.ledger.requests, u)
      && A.Gone(b.ledger, id) == if 1 <= id <= |b.ledger.serverIds| && id !in b.queue.mapped then 1 else 0
  {
    InitialInv(limit, maxChunk);
    RunKeeps(Initial(limit, maxChunk), actions);
    var b := Run(Initial(limit, maxChunk), actions).manager.books;
    A.WhereDeliveriesAre(b, u);
    assert A.SettledOnce(b.ledger, b.queue.mapped.Keys, id);
  }

  /**
    When the main loop exits, every delivery was acknowledged or nacked exactly once:
    acknowledged as often as the handler acked it, and nacked as often as the handler
    nacked it or it was given back unhandled.
  */
  lemma SettledAtExit(limit: nat, maxChunk: nat, actions: seq<Action>, u: ServerId, id: AckId)
    requires maxChunk > 0 && Legal(Initial(limit, maxChunk), actions)
    requires ShouldStop(Run(Initial(limit, maxChunk), actions).manager)
    ensures var l := Run(Initial(limit, maxChunk), actions).manager.books.ledger;
      && Count(l.serverIds, u) == A.AckedCount(l.requests, u) + A.NackedCount(l.requests, u)
      && A.AckedCount(l.requests, u) == |A.AcksOf(l.serverIds, l.decided, u)|
      && A.NackedCount(l.requests, u) == |A.NacksOf(l.serverIds, l.decided, u)| + |A.ReleasesOf(l.serverIds, l.released, u)|
      && A.Gone(l, id) == if 1 <= id <= |l.serverIds| then 1 else 0
  {
    InitialInv(limit, maxChunk);
    var s := Run(Initial(limit, maxChunk), actions);
    RunKeeps(Initial(limit, maxChunk), actions);
    MappedIsInFlight(s);
    A.AllSettled(s.manager.books, u, id);
  }

  /** After a stop was accepted, the mapped ids are exactly those in flight. */
  lemma MappedIsInFlight(s: System)
    requires SystemInv(s) && s.manager.sched.stopping
    ensures s.manager.books.queue.mapped.Keys == s.manager.sched.flight.Keys
  {
    var m := s.manager;
    forall id ensures id in m.books.queue.mapped <==> id in m.sched.flight {
      assert Linked(m, id);
    }
  }

  /**
    Ordering keys. In every run, the dispatched messages of a key are a prefix of the
    received ones; two messages of one key are never in flight together; and before a
    stop, a key has a pending queue exactly when one of its messages is ready or in flight.
  */
  lemma OrderingKeys(limit: nat, maxChunk: nat, actions: seq<Action>, k: string, a: AckId, b: AckId)
    requires maxChunk > 0 && Legal(Initial(limit, maxChunk), actions)
    ensures var s := Run(Initial(limit, maxChunk), actions).manager.sched;
      && O.ByKey(s.dispatched, Some(k)) <= O.ByKey(s.received, Some(k))
      && (a in s.flight && b in s.flight && s.flight[a].key == s.flight[b].key == Some(k) ==> a == b)
      && (!s.stopping ==>
            |O.ByKey(s.hold.ready, Some(k))| + |O.InFlightFor(s.flight, Some(k))|
            == if k in s.hold.pending then 1 else 0)
  {
    InitialInv(limit, maxChunk);
    RunKeeps(Initial(limit, maxChunk), actions);
    var s := Run(Initial(limit, maxChunk), actions).manager.sched;
    O.DispatchedIsPrefix(s, Some(k));
    assert O.Slot(s, k);
    if a in s.flight && b in s.flight && s.flight[a].key == s.flight[b].key == Some(k) {
      O.OneInFlightPerKey(s, a, b);
    }
  }

  // ---------------------------------------------------------------- progress

  /** Messages on hold and in flight. */
  ghost function Outstanding(m: Manager): nat {
    O.OnHold(m.sched.hold) + |m.sched.flight|
  }

  /** A verdict can arrive: the handler holds a message, or its verdict is under way. */
  ghost predicate VerdictPossible(s: System) {
    exists id :: id in s.outside || InMail(s.mailbox, id) > 0
  }

  /**
    No stuck message. After every step of every run the ready queue is empty or the
    processing limit is used up; so with a positive limit, whatever is outstanding is
    waiting for a verdict that can arrive.
  */
  lemma NoStuckMessage(limit: nat, maxChunk: nat, actions: seq<Action>)
    requires maxChunk > 0 && Legal(Initial(limit, maxChunk), actions)
    ensures var s := Run(Initial(limit, maxChunk), actions);
      && (s.manager.sched.hold.ready == [] || |s.manager.sched.flight| == limit)
      && |s.manager.sched.flight| <= limit
      && (limit > 0 && Outstanding(s.manager) > 0 ==> VerdictPossible(s))
  {
    InitialInv(limit, maxChunk);
    RunKeeps(Initial(limit, maxChunk), actions);
    LimitFixed(Initial(limit, maxChunk), actions);
    var s := Run(Initial(limit, maxChunk), actions);
    if limit > 0 && Outstanding(s.manager) > 0 {
      if s.manager.sched.flight == map[] {
        EmptyHoldCount();
        O.NothingStuck(s.manager.sched);
      }
      var id :| id in s.manager.sched.flight;
      assert MailOk(s, id);
    }
  }

  lemma EmptyHoldCount()
    ensures O.OnHold(O.EMPTY_HOLD) == 0
  {
    assert O.Lengths(map[]) == map[];
  }

  lemma {:induction false} FlushLimit(s: O.Sched)
    ensures O.Flush(s).limit == s.limit && O.Flush(s).stopping == s.stopping
    ensures O.Flush(s).received == s.received
    ensures s.limit == 0 ==> O.Flush(s) == s
    decreases |s.hold.ready|
  {
    if O.CanDispatch(s) {
      FlushLimit(O.DispatchOne(s));
    }
  }

  lemma {:induction false} StoreAllLimit(m: Manager, batch: seq<Received>, now: nat)
    ensures var t := StoreAll(m, batch, now);
      t.sched.limit == m.sched.limit && t.sched.stopping == m.sched.stopping && t.sched.dispatched == m.sched.dispatched
      && t.books.ledger.decided == m.books.ledger.decided
  {
    if batch != [] {
      StoreAllLimit(m, batch[..|batch| - 1], now);
    }
  }

  lemma StepLimit(s: System, a: Action)
    ensures var m, m' := s.manager.sched, Step(s, a).manager.sched;
      m'.limit == m.limit && (m.limit == 0 ==> m'.dispatched == m.dispatched)
  {
    match a
    case Respond(batch, now) =>
      StoreAllLimit(s.manager, batch, now);
      FlushLimit(StoreAll(s.manager, batch, now).sched);
    case Receive(order) =>
      if s.mailbox != [] && s.mailbox[0].Verdict? {
        FinishIds(s.manager.sched, s.mailbox[0].verdict.id);
        FlushLimit(O.Finish(s.manager.sched, s.mailbox[0].verdict.id));
      }
    case _ =>
  }

  lemma {:induction false} LimitFixed(s: System, actions: seq<Action>)
    ensures var m, m' := s.manager.sched, Run(s, actions).manager.sched;
      m'.limit == m.limit && (m.limit == 0 ==> m'.dispatched == m.dispatched)
  {
    if actions != [] {
      var init := actions[..|actions| - 1];
      LimitFixed(s, init);
      StepLimit(Run(s, init), actions[|actions| - 1]);
    }
  }

  /** With a limit of zero no run ever dispatches anything, so the positive limit above is needed. */
  lemma ZeroLimitDispatchesNothing(maxChunk: nat, actions: seq<Action>)
    ensures Run(Initial(0, maxChunk), actions).manager.sched.dispatched == []
  {
    LimitFixed(Initial(0, maxChunk), actions);
  }

  /** A flush only moves messages from hold to flight. */
  lemma FlushOutstanding(m: Manager)
    requires CoreInv(m)
    ensures Outstanding(FlushReady(m)) == Outstanding(m)
  {
    O.FlushTakesFront(m.sched);
  }

  lemma VerdictOutstanding(m: Manager, a: AckOrNack<AckId>)
    requires CoreInv(m) && a.id in m.sched.flight
    ensures Outstanding(HandleVerdict(m, a)) == Outstanding(m) - 1
    ensures HandleVerdict(m, a).books.ledger.decided == m.books.ledger.decided + [a]
  {
    ConcludedKeeps(m, a);
    FlushOutstanding(Concluded(m, a));
    if m.sched.flight[a.id].key.Some? {
      O.ActivateCount(m.sched.hold, m.sched.flight[a.id].key.value);
    }
    assert (m.sched.flight - {a.id}).Keys == m.sched.flight.Keys - {a.id};
    assert Linked(m, a.id);
  }

  /** Each verdict taken settles one outstanding message; nothing else but a response or a stop changes the count. */
  lemma StepOutstanding(s: System, a: Action)
    requires SystemInv(s) && Enabled(s, a) && !a.Respond? && !Step(s, a).manager.sched.stopping
    ensures !s.manager.sched.stopping
    ensures var m, m' := s.manager, Step(s, a).manager;
      Outstanding(m') + |m'.books.ledger.decided| == Outstanding(m) + |m.books.ledger.decided|
  {
    if a.Receive? && s.mailbox[0].Verdict? {
      HeadInFlight(s);
      VerdictOutstanding(s.manager, s.mailbox[0].verdict);
      FlushLimit(O.Finish(s.manager.sched, s.mailbox[0].verdict.id));
    }
  }

  ghost predicate NoResponse(actions: seq<Action>) {
    forall i :: 0 <= i < |actions| ==> !actions[i].Respond?
  }

  /**
    Eventual dispatch. In a run without new responses, every verdict taken lowers the
    number of outstanding messages by one; so once as many verdicts were taken as there
    were outstanding messages, everything received has been dispatched and settled.
  */
  lemma {:induction false} VerdictsDrain(s: System, actions: seq<Action>)
    requires SystemInv(s) && Legal(s, actions) && NoResponse(actions)
    requires !Run(s, actions).manager.sched.stopping
    ensures var m, m' := s.manager, Run(s, actions).manager;
      && Outstanding(m') + |m'.books.ledger.decided| == Outstanding(m) + |m.books.ledger.decided|
      && (|m'.books.ledger.decided| == |m.books.ledger.decided| + Outstanding(m)
          ==> |m'.sched.dispatched| == |m'.sched.received| && m'.sched.flight == map[])
  {
    RunKeeps(s, actions);
    if actions != [] {
      var init, last := actions[..|actions| - 1], actions[|actions| - 1];
      RunKeeps(s, init);
      StepOutstanding(Run(s, init), last);
      VerdictsDrain(s, init);
    }
  }

  /**
    An ordering key goes on at once: after a verdict on one of its messages, the next
    message dispatched is the one that waited longest for that key.
  */
  lemma KeyGoesOn(m: Manager, a: AckOrNack<AckId>, k: string)
    requires CoreInv(m) && a.id in m.sched.flight && m.sched.flight[a.id].key == Some(k)
    requires k in m.sched.hold.pending && m.sched.hold.pending[k] != []
    ensures var t := HandleVerdict(m, a).sched;
      |t.dispatched| > |m.sched.dispatched| && t.dispatched[|m.sched.dispatched|] == m.sched.hold.pending[k][0]
  {
    ConcludedKeeps(m, a);
    var u := Concluded(m, a).sched;
    assert (m.sched.flight - {a.id}).Keys == m.sched.flight.Keys - {a.id};
    O.FlushTakesFront(u);
  }

  // ---------------------------------------------------------------- graceful stop

  lemma StopStep(s: System, a: Action)
    requires SystemInv(s) && Enabled(s, a) && s.manager.sched.stopping
    ensures var m, m' := s.manager, Step(s, a).manager;
      m'.sched.stopping && m'.sched.received == m.sched.received && m'.sched.dispatched == m.sched.dispatched
  {
    if a.Receive? && s.mailbox[0].Verdict? {
      var t := O.Finish(s.manager.sched, s.mailbox[0].verdict.id);
      HeadInFlight(s);
      FinishIds(s.manager.sched, s.mailbox[0].verdict.id);
      FlushLimit(t);
      assert t.hold.ready == [];
      assert O.Flush(t) == t;
    }
  }

  /**
    Graceful stop. Once a stop was accepted, in every continuation the stream stays
    closed, nothing is received or dispatched again, and the mapped ids are those in flight.
  */
  lemma {:induction false} GracefulStopIsFinal(s: System, actions: seq<Action>)
    requires SystemInv(s) && Legal(s, actions) && s.manager.sched.stopping
    ensures var m, m' := s.manager, Run(s, actions).manager;
      && m'.sched.stopping && !m'.open
      && m'.sched.received == m.sched.received
      && m'.sched.dispatched == m.sched.dispatched
      && m'.books.queue.mapped.Keys == m'.sched.flight.Keys
  {
    if actions != [] {
      var init := actions[..|actions| - 1];
      GracefulStopIsFinal(s, init);
      RunKeeps(s, init);
      StopStep(Run(s, init), actions[|actions| - 1]);
    }
    RunKeeps(s, actions);
    MappedIsInFlight(Run(s, actions));
  }
}
