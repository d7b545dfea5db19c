/**
  What the streaming pull manager makes of a run, said in terms of the run alone: what
  the responses carried, what the handler decided, and what went out in requests.
*/
module PullTraces {
  import opened Options
  import opened PullTypes
  import opened Counting
  import opened PullProtocol
  import opened PullTheorems
  import O = PullOrdering
  import A = PullAcks

  /** The entries of a response that have a body. */
  function Bodies(batch: seq<Received>): seq<Received> {
    if batch == [] then []
    else
      var init, last := Bodies(batch[..|batch| - 1]), batch[|batch| - 1];
      if last.body.Some? then init + [last] else init
  }

  /** The deliveries of a run, in order. */
  function Delivered(actions: seq<Action>): seq<Received> {
    if actions == [] then []
    else
      var init, last := Delivered(actions[..|actions| - 1]), actions[|actions| - 1];
      if last.Respond? then init + Bodies(last.batch) else init
  }

  /** What was sent to the manager in a run, in order. */
  function Sent(actions: seq<Action>): seq<ManagerMessage> {
    if actions == [] then []
    else
      var init, last := Sent(actions[..|actions| - 1]), actions[|actions| - 1];
      if last.Settle? then init + [Verdict(last.verdict)]
      else if last.AskStop? then init + [GracefulStop]
      else init
  }

  /** How many of these messages the manager took. */
  function Taken(actions: seq<Action>): nat {
    if actions == [] then 0
    else Taken(actions[..|actions| - 1]) + if actions[|actions| - 1].Receive? then 1 else 0
  }

  /** How many background requests ended. */
  function Finished(actions: seq<Action>): nat {
    if actions == [] then 0
    else Finished(actions[..|actions| - 1]) + if actions[|actions| - 1].BackgroundDone? then 1 else 0
  }

  function VerdictsIn(mail: seq<ManagerMessage>): seq<AckOrNack<AckId>> {
    if mail == [] then []
    else
      var init, last := VerdictsIn(mail[..|mail| - 1]), mail[|mail| - 1];
      if last.Verdict? then init + [last.verdict] else init
  }

  // ---------------------------------------------------------------- receipts

  /** The message made of a delivery. An empty ordering key is no ordering key. */
  ghost predicate MadeOf(m: Message, id: AckId, r: Received) {
    && r.body.Some?
    && m.id == id
    && m.size == r.body.value.size
    && m.key == if r.body.value.orderingKey == "" then None else Some(r.body.value.orderingKey)
  }

  /** The manager has received exactly these deliveries, in this order. */
  ghost predicate Receipts(m: Manager, delivered: seq<Received>) {
    && |m.sched.received| == |m.books.ledger.serverIds| == |delivered| == m.books.queue.lastId
    && forall i :: 0 <= i < |delivered| ==>
         && m.books.ledger.serverIds[i] == delivered[i].serverId
         && MadeOf(m.sched.received[i], i + 1, delivered[i])
  }

  lemma {:induction false} StoreAllReceipts(m: Manager, delivered: seq<Received>, batch: seq<Received>, now: nat)
    requires Receipts(m, delivered)
    ensures Receipts(StoreAll(m, batch, now), delivered + Bodies(batch))
  {
    if batch == [] {
      assert delivered + [] == delivered;
    } else {
      var init, last := batch[..|batch| - 1], batch[|batch| - 1];
      StoreAllReceipts(m, delivered, init, now);
      if last.body.Some? {
        assert delivered + (Bodies(init) + [last]) == (delivered + Bodies(init)) + [last];
      }
    }
  }

  /** A message sent to the manager changes nothing about what was received. */
  lemma MessageReceipts(m: Manager, message: ManagerMessage, order: seq<string>)
    ensures var m' := HandleMessage(m, message, order);
      && m'.sched.received == m.sched.received
      && m'.books.ledger.serverIds == m.books.ledger.serverIds
  {
    match message
    case Verdict(v) =>
      FinishIds(m.sched, v.id);
      FlushLimit(O.Finish(m.sched, v.id));
    case GracefulStop =>
      A.ReleaseFrame(m.books, O.Ids(O.Drained(m.sched.hold, order)));
  }

  /** Receipts over every run: messages and Pub/Sub ids are those of the deliveries, in order. */
  lemma {:induction false} ReceiptsAreDeliveries(limit: nat, maxChunk: nat, actions: seq<Action>)
    requires maxChunk > 0 && Legal(Initial(limit, maxChunk), actions)
    ensures Receipts(Run(Initial(limit, maxChunk), actions).manager, Delivered(actions))
  {
    if actions != [] {
      var init, last := actions[..|actions| - 1], actions[|actions| - 1];
      ReceiptsAreDeliveries(limit, maxChunk, init);
      InitialInv(limit, maxChunk);
      RunKeeps(Initial(limit, maxChunk), actions);
      var s := Run(Initial(limit, maxChunk), init);
      match last {
        case Respond(batch, now) =>
          StoreAllReceipts(s.manager, Delivered(init), batch, now);
          FlushLimit(StoreAll(s.manager, batch, now).sched);
        case Receive(order) =>
          MessageReceipts(s.manager, s.mailbox[0], order);
        case _ =>
      }
    }
  }

  // ---------------------------------------------------------------- mail

  /** The mail is taken in order, and nothing else is decided or stops the manager. */
  ghost predicate MailTaken(s: System, sent: seq<ManagerMessage>, taken: nat) {
    && taken <= |sent|
    && s.mailbox == sent[taken..]
    && s.manager.books.ledger.decided == VerdictsIn(sent[..taken])
    && (s.manager.sched.stopping <==> GracefulStop in sent[..taken])
  }

  lemma MoreMail(s: System, sent: seq<ManagerMessage>, taken: nat, message: ManagerMessage)
    requires MailTaken(s, sent, taken)
    ensures MailTaken(s.(mailbox := s.mailbox + [message]), sent + [message], taken)
  {
    assert (sent + [message])[..taken] == sent[..taken];
    assert (sent + [message])[taken..] == sent[taken..] + [message];
  }

  lemma TakeMail(s: System, sent: seq<ManagerMessage>, taken: nat, order: seq<string>)
    requires SystemInv(s) && s.mailbox != [] && MailTaken(s, sent, taken)
    ensures MailTaken(Step(s, Receive(order)), sent, taken + 1)
  {
    assert sent[..taken + 1] == sent[..taken] + [s.mailbox[0]];
    assert sent[..taken + 1][..taken] == sent[..taken];
    match s.mailbox[0]
    case Verdict(v) =>
      HeadInFlight(s);
      assert Linked(s.manager, v.id);
      FinishIds(s.manager.sched, v.id);
      FlushLimit(O.Finish(s.manager.sched, v.id));
    case GracefulStop =>
      A.ReleaseFrame(s.manager.books, O.Ids(O.Drained(s.manager.sched.hold, order)));
  }

  lemma OtherMail(s: System, a: Action, sent: seq<ManagerMessage>, taken: nat)
    requires MailTaken(s, sent, taken) && !FromOutside(a) && !a.Receive?
    ensures MailTaken(Step(s, a), sent, taken)
  {
    if a.Respond? {
      StoreAllLimit(s.manager, a.batch, a.now);
      FlushLimit(StoreAll(s.manager, a.batch, a.now).sched);
    }
  }

  lemma StepMail(s: System, a: Action, sent: seq<ManagerMessage>, taken: nat)
    requires SystemInv(s) && Enabled(s, a) && MailTaken(s, sent, taken)
    ensures a.Settle? ==> MailTaken(Step(s, a), sent + [Verdict(a.verdict)], taken)
    ensures a.AskStop? ==> MailTaken(Step(s, a), sent + [GracefulStop], taken)
    ensures a.Receive? ==> MailTaken(Step(s, a), sent, taken + 1)
    ensures !FromOutside(a) && !a.Receive? ==> MailTaken(Step(s, a), sent, taken)
  {
    match a
    case Settle(v) => MoreMail(s, sent, taken, Verdict(v));
    case AskStop => MoreMail(s, sent, taken, GracefulStop);
    case Receive(order) => TakeMail(s, sent, taken, order);
    case _ => OtherMail(s, a, sent, taken);
  }

  /**
    Mail over every run: the mailbox is what was sent and not yet taken; the decisions are
    the verdicts taken, as the handler gave them; and a stop is accepted when one is taken.
  */
  lemma {:induction false} MailInOrder(limit: nat, maxChunk: nat, actions: seq<Action>)
    requires maxChunk > 0 && Legal(Initial(limit, maxChunk), actions)
    ensures MailTaken(Run(Initial(limit, maxChunk), actions), Sent(actions), Taken(actions))
  {
    if actions != [] {
      var init := actions[..|actions| - 1];
      MailInOrder(limit, maxChunk, init);
      InitialInv(limit, maxChunk);
      RunKeeps(Initial(limit, maxChunk), init);
      StepMail(Run(Initial(limit, maxChunk), init), actions[|actions| - 1], Sent(init), Taken(init));
    }
  }

  // ---------------------------------------------------------------- background requests

  lemma {:induction false} StoreAllTasks(m: Manager, batch: seq<Received>, now: nat)
    ensures var t := StoreAll(m, batch, now);
      t.background == m.background && t.books.ledger.requests == m.books.ledger.requests
  {
    if batch != [] {
      StoreAllTasks(m, batch[..|batch| - 1], now);
    }
  }

  /** A step makes as many requests as it starts background tasks, unless it ends one. */
  lemma StepTasks(s: System, a: Action)
    requires a.BackgroundDone? ==> s.manager.background > 0
    ensures var m, m' := s.manager, Step(s, a).manager;
      |m'.books.ledger.requests| - m'.background
      == |m.books.ledger.requests| - m.background + if a.BackgroundDone? then 1 else 0
  {
    if a.Respond? {
      StoreAllTasks(s.manager, a.batch, a.now);
    }
  }

  /** Every request made is running in the background or has ended. */
  lemma {:induction false} RequestsAccounted(limit: nat, maxChunk: nat, actions: seq<Action>)
    requires Legal(Initial(limit, maxChunk), actions)
    ensures var m := Run(Initial(limit, maxChunk), actions).manager;
      |m.books.ledger.requests| == m.background + Finished(actions)
  {
    if actions != [] {
      var init := actions[..|actions| - 1];
      RequestsAccounted(limit, maxChunk, init);
      StepTasks(Run(Initial(limit, maxChunk), init), actions[|actions| - 1]);
    }
  }

  // ---------------------------------------------------------------- end to end

  /** The deliveries of u that the handler acked in a run. Delivery i has the internal id i + 1. */
  ghost function Acked(actions: seq<Action>, u: ServerId): set<nat> {
    set i | 0 <= i < |Delivered(actions)| && Delivered(actions)[i].serverId == u && Verdict(Ack(i + 1)) in Sent(actions)
  }

  /** The deliveries of u that it did not ack: nacked, or never handled. */
  ghost function NotAcked(actions: seq<Action>, u: ServerId): set<nat> {
    set i | 0 <= i < |Delivered(actions)| && Delivered(actions)[i].serverId == u && Verdict(Ack(i + 1)) !in Sent(actions)
  }

  /** The deliveries of u among some ids. */
  ghost function Carried(serverIds: seq<ServerId>, ids: set<AckId>, u: ServerId): set<nat> {
    set i | 0 <= i < |serverIds| && serverIds[i] == u && i + 1 in ids
  }

  lemma CarriedStep(serverIds: seq<ServerId>, x: ServerId, ids: set<AckId>, u: ServerId)
    ensures |Carried(serverIds + [x], ids, u)|
         == |Carried(serverIds, ids, u)| + if x == u && |serverIds| + 1 in ids then 1 else 0
  {
    var n := |serverIds|;
    if x == u && n + 1 in ids {
      assert Carried(serverIds + [x], ids, u) == Carried(serverIds, ids, u) + {n};
    } else {
      assert Carried(serverIds + [x], ids, u) == Carried(serverIds, ids, u);
    }
  }

  lemma {:induction false} HeldIsCarried(serverIds: seq<ServerId>, ids: set<AckId>, u: ServerId)
    ensures A.HeldCount(serverIds, ids, u) == |Carried(serverIds, ids, u)|
  {
    if serverIds != [] {
      var init, x := serverIds[..|serverIds| - 1], serverIds[|serverIds| - 1];
      HeldIsCarried(init, ids, u);
      CarriedStep(init, x, ids, u);
      assert serverIds == init + [x];
    }
  }

  ghost function Occurrences(serverIds: seq<ServerId>, u: ServerId): set<nat> {
    set i | 0 <= i < |serverIds| && serverIds[i] == u
  }

  lemma OccurrencesStep(serverIds: seq<ServerId>, x: ServerId, u: ServerId)
    ensures |Occurrences(serverIds + [x], u)| == |Occurrences(serverIds, u)| + if x == u then 1 else 0
  {
    var n := |serverIds|;
    if x == u {
      assert Occurrences(serverIds + [x], u) == Occurrences(serverIds, u) + {n};
    } else {
      assert Occurrences(serverIds + [x], u) == Occurrences(serverIds, u);
    }
  }

  lemma {:induction false} CountIsOccurrences(serverIds: seq<ServerId>, u: ServerId)
    ensures Count(serverIds, u) == |Occurrences(serverIds, u)|
  {
    if serverIds != [] {
      var init, x := serverIds[..|serverIds| - 1], serverIds[|serverIds| - 1];
      CountIsOccurrences(init, u);
      OccurrencesStep(init, x, u);
      assert serverIds == init + [x];
    }
  }

  lemma {:induction false} VerdictsInMember(mail: seq<ManagerMessage>, v: AckOrNack<AckId>)
    ensures v in VerdictsIn(mail) <==> Verdict(v) in mail
  {
    if mail != [] {
      VerdictsInMember(mail[..|mail| - 1], v);
      assert mail == mail[..|mail| - 1] + [mail[|mail| - 1]];
    }
  }

  ghost function AckSet(decided: seq<AckOrNack<AckId>>): set<AckId> {
    set a | a in decided && a.Ack? :: a.id
  }

  /** With no id decided twice, the acks of u are the acked ids that carry u. */
  lemma {:induction false} AcksAreHeld(serverIds: seq<ServerId>, decided: seq<AckOrNack<AckId>>, u: ServerId)
    requires forall i :: 0 <= i < |decided| ==> 1 <= decided[i].id <= |serverIds|
    requires AckedOnce(decided)
    ensures |A.AcksOf(serverIds, decided, u)| == A.HeldCount(serverIds, AckSet(decided), u)
  {
    if decided == [] {
      A.HeldNone(serverIds, u);
      assert AckSet(decided) == {};
    } else {
      var init, a := decided[..|decided| - 1], decided[|decided| - 1];
      assert decided == init + [a];
      AckSetStep(init, a);
      AcksAreHeld(serverIds, init, u);
      A.AcksStep(serverIds, init, a, u);
      if a.Ack? {
        A.HeldRemove(serverIds, AckSet(decided), a.id, u);
      }
    }
  }

  ghost predicate AckedOnce(decided: seq<AckOrNack<AckId>>) {
    forall id :: Count(decided, Ack(id)) <= 1
  }

  lemma AckSetStep(decided: seq<AckOrNack<AckId>>, a: AckOrNack<AckId>)
    requires AckedOnce(decided + [a])
    ensures AckedOnce(decided)
    ensures a.Nack? ==> AckSet(decided + [a]) == AckSet(decided)
    ensures a.Ack? ==> a.id in AckSet(decided + [a]) && AckSet(decided + [a]) - {a.id} == AckSet(decided)
  {
    forall id ensures Count(decided, Ack(id)) <= 1 {
      CountAppend(decided, a, Ack(id));
      assert Count(decided + [a], Ack(id)) <= 1;
    }
    forall id ensures id in AckSet(decided + [a]) <==> id in AckSet(decided) || a == Ack(id) {
      if id in AckSet(decided) {
        assert Ack(id) in decided + [a];
      }
    }
    if a.Ack? {
      CountAppend(decided, a, a);
      CountMember(decided, a);
      assert Count(decided + [a], Ack(a.id)) <= 1;
    }
  }

  /** When the main loop exits, no verdict is left in the mailbox. */
  lemma NoVerdictLeft(s: System, v: AckOrNack<AckId>)
    requires SystemInv(s) && ShouldStop(s.manager)
    ensures Verdict(v) !in s.mailbox
  {
    assert MailOk(s, v.id);
    CountMember(s.mailbox, Verdict(v));
  }

  lemma DecidedIsSent(s: System, sent: seq<ManagerMessage>, taken: nat, v: AckOrNack<AckId>)
    requires SystemInv(s) && ShouldStop(s.manager) && MailTaken(s, sent, taken)
    ensures v in s.manager.books.ledger.decided <==> Verdict(v) in sent
  {
    assert sent == sent[..taken] + sent[taken..];
    VerdictsInMember(sent[..taken], v);
    NoVerdictLeft(s, v);
  }

  /** At exit, what was decided is what the handler said about the deliveries. */
  lemma AckedAtExit(s: System, actions: seq<Action>, u: ServerId)
    requires SystemInv(s) && ShouldStop(s.manager)
    requires MailTaken(s, Sent(actions), Taken(actions)) && Receipts(s.manager, Delivered(actions))
    ensures var l := s.manager.books.ledger;
      && Carried(l.serverIds, AckSet(l.decided), u) == Acked(actions, u)
      && Occurrences(l.serverIds, u) == Acked(actions, u) + NotAcked(actions, u)
  {
    var l := s.manager.books.ledger;
    forall i | 0 <= i < |l.serverIds|
      ensures i in Carried(l.serverIds, AckSet(l.decided), u) <==> i in Acked(actions, u)
    {
      var v: AckOrNack<AckId> := Ack(i + 1);
      DecidedIsSent(s, Sent(actions), Taken(actions), v);
      assert i + 1 in AckSet(l.decided) <==> v in l.decided;
    }
  }

  /** No id is decided twice. */
  lemma DecidedOnce(s: System)
    requires SystemInv(s)
    ensures AckedOnce(s.manager.books.ledger.decided)
    ensures forall i :: 0 <= i < |s.manager.books.ledger.decided| ==>
      1 <= s.manager.books.ledger.decided[i].id <= |s.manager.books.ledger.serverIds|
  {
    var l, keys := s.manager.books.ledger, s.manager.books.queue.mapped.Keys;
    A.GoneInRange(l, keys);
    forall id ensures Count(l.decided, Ack(id)) <= 1 {
      assert A.SettledOnce(l, keys, id);
    }
  }

  /**
    End to end. When the main loop exits, every request it made has ended, and the
    requests acknowledge exactly the deliveries that the handler acked and nack exactly
    the others, each as often as it was delivered.
  */
  lemma EndToEnd(limit: nat, maxChunk: nat, actions: seq<Action>, u: ServerId)
    requires maxChunk > 0 && Legal(Initial(limit, maxChunk), actions)
    requires ShouldStop(Run(Initial(limit, maxChunk), actions).manager)
    ensures var requests := Run(Initial(limit, maxChunk), actions).manager.books.ledger.requests;
      && |requests| == Finished(actions)
      && A.AckedCount(requests, u) == |Acked(actions, u)|
      && A.NackedCount(requests, u) == |NotAcked(actions, u)|
  {
    var s := Run(Initial(limit, maxChunk), actions);
    var l := s.manager.books.ledger;
    RequestsAccounted(limit, maxChunk, actions);
    ReceiptsAreDeliveries(limit, maxChunk, actions);
    MailInOrder(limit, maxChunk, actions);
    SettledAtExit(limit, maxChunk, actions, u, 0);
    InitialInv(limit, maxChunk);
    RunKeeps(Initial(limit, maxChunk), actions);
    AckedAtExit(s, actions, u);
    DecidedOnce(s);
    AcksAreHeld(l.serverIds, l.decided, u);
    HeldIsCarried(l.serverIds, AckSet(l.decided), u);
    CountIsOccurrences(l.serverIds, u);
    assert |Acked(actions, u) + NotAcked(actions, u)| == |Acked(actions, u)| + |NotAcked(actions, u)|;
  }
}
