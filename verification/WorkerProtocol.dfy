/**
  The workers' side of the coordinator: every worker stream asks for an action, is sent
  one, and settles it with its next request. Streams, requesters and the shutdown hook
  interleave at every await.
*/
module WorkerProtocol {
  import opened Options
  import opened Counting
  import opened PriorityQueue

  datatype Verdict = Ack | Nack

  datatype ActionRequest = Initial | AckOrNack(verdict: Option<Verdict>)

  /** A request as decoded: any part that the wire format allows to be absent may be. */
  datatype Request =
    | Missing
    | ForAction(request: Option<ActionRequest>)
    | Disconnect(verdict: Option<Verdict>)

  datatype Phase = Idle | Fetching | Sending(id: ActionId) | Holding(id: ActionId) | Ended

  /** A worker's stream and, in order, the actions it was sent. */
  datatype Client = Client(phase: Phase, sent: seq<ActionId>)

  /** What happens to the outstanding action when a request is handled. */
  datatype Outcome = Untouched | Settle(verdict: Verdict) | Discard

  function HandleActionRequest(request: ActionRequest, outstanding: bool): (Phase, Outcome) {
    match request
    case Initial => if outstanding then (Ended, Discard) else (Fetching, Untouched)
    case AckOrNack(Some(v)) => if outstanding then (Fetching, Settle(v)) else (Ended, Untouched)
    case AckOrNack(None) => (Ended, if outstanding then Discard else Untouched)
  }

  function HandleRequest(request: Request, outstanding: bool): (Phase, Outcome) {
    match request
    case ForAction(Some(r)) => HandleActionRequest(r, outstanding)
    case Disconnect(Some(v)) => (Ended, if outstanding then Settle(v) else Untouched)
    case _ => (Ended, if outstanding then Discard else Untouched)
  }

  datatype State = State(
    queues: Queues,
    created: nat,
    gone: set<ActionId>,
    clients: seq<Client>,
    settled: seq<ActionId>,
    verdicts: map<ActionId, Verdict>,
    dropped: seq<ActionId>)

  datatype Step =
    | Submit(priority: Priority)
    | Abandon(id: ActionId)
    | Connect
    | Ask(client: nat, request: Request)
    | Fetch(client: nat)
    | TimeOut(client: nat)
    | Deliver(client: nat, accepted: bool)
    | Hangup(client: nat)
    | NackAll
    | Close

  predicate Enabled(s: State, step: Step) {
    match step
    case Ask(c, _) => c < |s.clients| && (s.clients[c].phase.Idle? || s.clients[c].phase.Holding?)
    case Fetch(c) => c < |s.clients| && s.clients[c].phase.Fetching?
    case TimeOut(c) => c < |s.clients| && s.clients[c].phase.Fetching?
    case Deliver(c, _) => c < |s.clients| && s.clients[c].phase.Sending?
    case Hangup(c) => c < |s.clients| && (s.clients[c].phase.Idle? || s.clients[c].phase.Holding?)
    case Abandon(id) => id < s.created
    case _ => true
  }

  function InPhase(s: State, c: nat, phase: Phase): State
    requires c < |s.clients|
  {
    s.(clients := s.clients[c := s.clients[c].(phase := phase)])
  }

  /** Moves a client on, doing to the action it holds what the request says. */
  function Finish(s: State, c: nat, phase: Phase, outcome: Outcome): State
    requires c < |s.clients|
  {
    var s' := InPhase(s, c, phase);
    if !s.clients[c].phase.Holding? then s'
    else
      var id := s.clients[c].phase.id;
      match outcome
      case Untouched => s'
      case Settle(v) => s'.(settled := s.settled + [id], verdicts := s.verdicts[id := v])
      case Discard => s'.(dropped := s.dropped + [id])
  }

  function NackedAll(verdicts: map<ActionId, Verdict>, ids: seq<ActionId>): map<ActionId, Verdict> {
    verdicts + map id | id in ids :: Nack
  }

  ghost function Next(s: State, step: Step): State
    requires Enabled(s, step)
  {
    match step
    case Submit(p) =>
      var id := s.created;
      if s.queues.closed then s.(created := id + 1, dropped := s.dropped + [id])
      else s.(created := id + 1, queues := Sent(s.queues, id, p))
    case Abandon(id) => s.(gone := s.gone + {id})
    case Connect => s.(clients := s.clients + [Client(Idle, [])])
    case Ask(c, request) =>
      var handled := HandleRequest(request, s.clients[c].phase.Holding?);
      Finish(s, c, handled.0, handled.1)
    case Fetch(c) =>
      var r := Receive(s.queues, s.gone);
      var phase := match r.answer case Got(id) => Sending(id) case Closed => Ended case Waiting => Fetching;
      InPhase(s, c, phase).(queues := r.left, dropped := s.dropped + r.skipped)
    case TimeOut(c) => InPhase(s, c, Ended)
    case Deliver(c, accepted) =>
      var id := s.clients[c].phase.id;
      if accepted then s.(clients := s.clients[c := Client(Holding(id), s.clients[c].sent + [id])])
      else InPhase(s, c, Ended).(dropped := s.dropped + [id])
    case Hangup(c) => Finish(s, c, Ended, Discard)
    case NackAll =>
      s.(queues := s.queues.(async := []), settled := s.settled + s.queues.async,
         verdicts := NackedAll(s.verdicts, s.queues.async))
    case Close => s.(queues := s.queues.(closed := true))
  }

  // ---------------------------------------------------------------- where every action is

  predicate Has(client: Client, id: ActionId) {
    client.phase == Sending(id) || client.phase == Holding(id)
  }

  /** How many clients have an action. */
  function Holders(clients: seq<Client>, id: ActionId): nat {
    if clients == [] then 0
    else Holders(clients[..|clients| - 1], id) + if Has(clients[|clients| - 1], id) then 1 else 0
  }

  /** In how many places an action is. */
  function Places(s: State, id: ActionId): nat {
    Count(s.queues.sync, id) + Count(s.queues.async, id) + Holders(s.clients, id) + Count(s.settled, id) + Count(s.dropped, id)
  }

  /** A client that holds an action was sent it last. */
  ghost predicate ClientOk(client: Client) {
    client.phase.Holding? ==> client.sent != [] && client.sent[|client.sent| - 1] == client.phase.id
  }

  ghost predicate Inv(s: State) {
    && (forall id: ActionId :: Places(s, id) == if id < s.created then 1 else 0)
    && (forall c :: 0 <= c < |s.clients| ==> ClientOk(s.clients[c]))
    && (forall id: ActionId :: id in s.verdicts <==> id in s.settled)
  }

  lemma {:induction false} HoldersUpdate(clients: seq<Client>, c: nat, x: Client, id: ActionId)
    requires c < |clients|
    ensures Holders(clients[c := x], id) + (if Has(clients[c], id) then 1 else 0)
         == Holders(clients, id) + if Has(x, id) then 1 else 0
    decreases |clients|
  {
    var init := clients[..|clients| - 1];
    if c < |init| {
      HoldersUpdate(init, c, x, id);
      assert clients[c := x][..|clients| - 1] == init[c := x];
    } else {
      assert clients[c := x][..|clients| - 1] == init;
    }
  }

  lemma FinishPlaces(s: State, c: nat, phase: Phase, outcome: Outcome, id: ActionId)
    requires c < |s.clients| && (s.clients[c].phase.Idle? || s.clients[c].phase.Holding?)
    requires (phase.Idle? || phase.Fetching? || phase.Ended?)
    requires s.clients[c].phase.Holding? ==> !outcome.Untouched?
    ensures Places(Finish(s, c, phase, outcome), id) == Places(s, id)
  {
    HoldersUpdate(s.clients, c, s.clients[c].(phase := phase), id);
    if s.clients[c].phase.Holding? {
      CountAppend(s.settled, s.clients[c].phase.id, id);
      CountAppend(s.dropped, s.clients[c].phase.id, id);
    }
  }

  lemma FetchPlaces(s: State, c: nat, id: ActionId)
    requires Enabled(s, Fetch(c))
    ensures Places(Next(s, Fetch(c)), id) == Places(s, id)
  {
    var r := Receive(s.queues, s.gone);
    var phase := match r.answer case Got(x) => Sending(x) case Closed => Ended case Waiting => Fetching;
    HoldersUpdate(s.clients, c, s.clients[c].(phase := phase), id);
    ReceiveCount(s.queues, s.gone, id);
    CountConcat(s.dropped, r.skipped, id);
  }

  lemma DeliverPlaces(s: State, c: nat, accepted: bool, id: ActionId)
    requires Enabled(s, Deliver(c, accepted))
    ensures Places(Next(s, Deliver(c, accepted)), id) == Places(s, id)
  {
    var x := s.clients[c].phase.id;
    if accepted {
      HoldersUpdate(s.clients, c, Client(Holding(x), s.clients[c].sent + [x]), id);
    } else {
      HoldersUpdate(s.clients, c, s.clients[c].(phase := Ended), id);
      CountAppend(s.dropped, x, id);
    }
  }

  lemma SubmitPlaces(s: State, p: Priority, id: ActionId)
    ensures Places(Next(s, Submit(p)), id) == Places(s, id) + if id == s.created then 1 else 0
  {
    CountAppend(s.dropped, s.created, id);
    CountAppend(s.queues.sync, s.created, id);
    CountAppend(s.queues.async, s.created, id);
  }

  /** Every step but a submission leaves each action in as many places as it was. */
  lemma StepPlaces(s: State, step: Step, id: ActionId)
    requires Enabled(s, step) && !step.Submit?
    ensures Places(Next(s, step), id) == Places(s, id)
  {
    match step {
      case Connect => assert (s.clients + [Client(Idle, [])])[..|s.clients|] == s.clients;
      case Ask(c, request) =>
        var handled := HandleRequest(request, s.clients[c].phase.Holding?);
        FinishPlaces(s, c, handled.0, handled.1, id);
      case Fetch(c) => FetchPlaces(s, c, id);
      case TimeOut(c) => HoldersUpdate(s.clients, c, s.clients[c].(phase := Ended), id);
      case Deliver(c, accepted) => DeliverPlaces(s, c, accepted, id);
      case Hangup(c) => FinishPlaces(s, c, Ended, Discard, id);
      case NackAll => CountConcat(s.settled, s.queues.async, id);
      case Abandon(_) =>
      case Close =>
    }
  }

  lemma ClientsKept(s: State, step: Step)
    requires Enabled(s, step) && forall c :: 0 <= c < |s.clients| ==> ClientOk(s.clients[c])
    ensures forall c :: 0 <= c < |Next(s, step).clients| ==> ClientOk(Next(s, step).clients[c])
  {
  }

  lemma VerdictsKept(s: State, step: Step)
    requires Enabled(s, step) && forall id: ActionId :: id in s.verdicts <==> id in s.settled
    ensures forall id: ActionId :: id in Next(s, step).verdicts <==> id in Next(s, step).settled
  {
  }

  lemma StepKeeps(s: State, step: Step)
    requires Enabled(s, step) && Inv(s)
    ensures Inv(Next(s, step))
  {
    ClientsKept(s, step);
    VerdictsKept(s, step);
    var t := Next(s, step);
    forall id: ActionId ensures Places(t, id) == if id < t.created then 1 else 0 {
      if step.Submit? {
        SubmitPlaces(s, step.priority, id);
      } else {
        StepPlaces(s, step, id);
      }
    }
  }

  // ---------------------------------------------------------------- whole runs

  function Start(): State {
    State(Queues([], [], false), 0, {}, [], [], map[], [])
  }

  ghost predicate Legal(s: State, steps: seq<Step>)
    decreases |steps|, 0
  {
    steps == [] || (Legal(s, steps[..|steps| - 1]) && Enabled(Run(s, steps[..|steps| - 1]), steps[|steps| - 1]))
  }

  ghost function Run(s: State, steps: seq<Step>): State
    requires Legal(s, steps)
    decreases |steps|, 1
  {
    if steps == [] then s else Next(Run(s, steps[..|steps| - 1]), steps[|steps| - 1])
  }

  lemma {:induction false} RunKeeps(s: State, steps: seq<Step>)
    requires Inv(s) && Legal(s, steps)
    ensures Inv(Run(s, steps))
  {
    if steps != [] {
      RunKeeps(s, steps[..|steps| - 1]);
      StepKeeps(Run(s, steps[..|steps| - 1]), steps[|steps| - 1]);
    }
  }

  lemma RunMore(s: State, steps: seq<Step>, t: State, step: Step)
    requires Legal(s, steps) && t == Run(s, steps) && Enabled(t, step)
    ensures Legal(s, steps + [step]) && Run(s, steps + [step]) == Next(t, step)
  {
    assert (steps + [step])[..|steps|] == steps;
  }

  /** In every interleaving each action is in exactly one place: a queue, one worker, settled, or dropped. */
  lemma EveryActionInOnePlace(steps: seq<Step>, id: ActionId)
    requires Legal(Start(), steps) && id < Run(Start(), steps).created
    ensures Places(Run(Start(), steps), id) == 1
  {
    RunKeeps(Start(), steps);
  }

  lemma {:induction false} HoldersAt(clients: seq<Client>, c: nat, id: ActionId)
    requires c < |clients| && Has(clients[c], id)
    ensures Holders(clients, id) >= 1
    ensures forall d :: 0 <= d < |clients| && d != c && Has(clients[d], id) ==> Holders(clients, id) >= 2
    decreases |clients|
  {
    var init := clients[..|clients| - 1];
    if c < |init| {
      HoldersAt(init, c, id);
    } else {
      forall d | 0 <= d < |init| && Has(init[d], id) ensures Holders(init, id) >= 1 {
        HoldersAt(init, d, id);
      }
    }
  }

  /** An action that a worker has is nowhere else, and no other worker has it. */
  lemma HeldOnce(s: State, c: nat, d: nat, id: ActionId)
    requires Inv(s) && c < |s.clients| && d < |s.clients| && Has(s.clients[c], id) && Has(s.clients[d], id)
    ensures c == d
    ensures id !in s.queues.sync && id !in s.queues.async && id !in s.settled && id !in s.dropped
  {
    HoldersAt(s.clients, c, id);
    assert Places(s, id) <= 1;
    CountMember(s.queues.sync, id);
    CountMember(s.queues.async, id);
    CountMember(s.settled, id);
    CountMember(s.dropped, id);
  }

  /** The verdict that a request carries. */
  function VerdictOf(request: Request): Option<Verdict> {
    match request
    case ForAction(Some(AckOrNack(v))) => v
    case Disconnect(v) => v
    case _ => None
  }

  /**
    A verdict settles the action that the worker was last sent, with that verdict. After
    it the worker gets another action, unless it said goodbye.
  */
  lemma AckSettlesLastSent(s: State, c: nat, request: Request, v: Verdict)
    requires Inv(s) && Enabled(s, Ask(c, request)) && s.clients[c].phase.Holding?
    requires request == ForAction(Some(AckOrNack(Some(v)))) || request == Disconnect(Some(v))
    ensures s.clients[c].sent != []
    ensures var t, last := Next(s, Ask(c, request)), s.clients[c].sent[|s.clients[c].sent| - 1];
      && last !in s.settled && t.settled == s.settled + [last]
      && t.verdicts == s.verdicts[last := v] && t.dropped == s.dropped
      && t.clients[c].phase == if request.Disconnect? then Ended else Fetching
  {
    HeldOnce(s, c, c, s.clients[c].phase.id);
  }

  /** Without a verdict or without an outstanding action nothing is settled, and what was outstanding is lost. */
  lemma NothingElseSettles(s: State, c: nat, request: Request)
    requires Inv(s) && Enabled(s, Ask(c, request)) && (s.clients[c].phase.Idle? || VerdictOf(request).None?)
    ensures var t := Next(s, Ask(c, request));
      && t.settled == s.settled && t.verdicts == s.verdicts
      && (if s.clients[c].phase.Idle?
          then t.dropped == s.dropped
               && t.clients[c].phase == if request == ForAction(Some(Initial)) then Fetching else Ended
          else s.clients[c].sent != []
               && t.dropped == s.dropped + [s.clients[c].sent[|s.clients[c].sent| - 1]]
               && t.clients[c].phase == Ended)
  {
    assert ClientOk(s.clients[c]);
  }

  /** Which requests settle the outstanding action, with which verdict, and which lose it or are granted another. */
  lemma SettlesIffVerdictGiven(request: Request, v: Verdict)
    ensures HandleRequest(request, true).1 == Settle(v) <==> VerdictOf(request) == Some(v)
    ensures HandleRequest(request, true).1 == Discard <==> VerdictOf(request) == None
    ensures HandleRequest(request, true).0 == Fetching <==> request.ForAction? && VerdictOf(request).Some?
    ensures HandleRequest(request, false).1 == Untouched
    ensures HandleRequest(request, false).0 == Fetching <==> request == ForAction(Some(Initial))
  {
  }

  /** The step gives this verdict on this action: its worker says so, or the hook at shutdown nacks it. */
  ghost predicate Gives(s: State, step: Step, id: ActionId, v: Verdict) {
    match step
    case Ask(c, request) =>
      && c < |s.clients| && s.clients[c].phase.Holding? && VerdictOf(request) == Some(v)
      && s.clients[c].sent != [] && s.clients[c].sent[|s.clients[c].sent| - 1] == id
    case NackAll => id in s.queues.async && v == Nack
    case _ => false
  }

  lemma StepGives(s: State, step: Step, id: ActionId)
    requires Inv(s) && Enabled(s, step)
    ensures forall v :: Gives(s, step, id, v) ==> id !in s.verdicts && id in Next(s, step).verdicts && Next(s, step).verdicts[id] == v
    ensures id in Next(s, step).verdicts && id !in s.verdicts ==> Gives(s, step, id, Next(s, step).verdicts[id])
  {
    if step.Ask? && s.clients[step.client].phase.Holding? {
      AskGives(s, step.client, step.request, id);
    } else if step.NackAll? {
      CountMember(s.settled, id);
      CountMember(s.queues.async, id);
      assert Places(s, id) <= 1;
    }
  }

  lemma AskGives(s: State, c: nat, request: Request, id: ActionId)
    requires Inv(s) && Enabled(s, Ask(c, request)) && s.clients[c].phase.Holding?
    ensures var t := Next(s, Ask(c, request));
      && (forall v :: Gives(s, Ask(c, request), id, v) ==> id !in s.verdicts && id in t.verdicts && t.verdicts[id] == v)
      && (id in t.verdicts && id !in s.verdicts ==> Gives(s, Ask(c, request), id, t.verdicts[id]))
  {
    assert ClientOk(s.clients[c]);
    match VerdictOf(request)
    case Some(v) => AckSettlesLastSent(s, c, request, v);
    case None => NothingElseSettles(s, c, request);
  }

  lemma {:induction false} PrefixLegal(s: State, steps: seq<Step>, n: nat)
    requires Legal(s, steps) && n <= |steps|
    ensures Legal(s, steps[..n])
  {
    if n < |steps| {
      PrefixLegal(s, steps[..|steps| - 1], n);
      assert steps[..|steps| - 1][..n] == steps[..n];
    } else {
      assert steps[..n] == steps;
    }
  }

  /** The n-th step of a run gives this verdict on this action. */
  ghost predicate GivenAt(s: State, steps: seq<Step>, n: nat, id: ActionId, v: Verdict) {
    n < |steps| && Legal(s, steps[..n]) && Gives(Run(s, steps[..n]), steps[n], id, v)
  }

  /** In every run an action has a verdict exactly if some step gave it that verdict. */
  lemma {:induction false} VerdictsAreGiven(steps: seq<Step>, id: ActionId, v: Verdict)
    requires Legal(Start(), steps)
    ensures var t := Run(Start(), steps);
      (id in t.verdicts && t.verdicts[id] == v) <==> exists n: nat :: GivenAt(Start(), steps, n, id, v)
  {
    var t := Run(Start(), steps);
    if id in t.verdicts && t.verdicts[id] == v {
      var n := VerdictWasGiven(steps, id);
    }
    if n: nat :| GivenAt(Start(), steps, n, id, v) {
      GivenStays(steps, n, id, v);
    }
  }

  lemma {:induction false} VerdictWasGiven(steps: seq<Step>, id: ActionId) returns (n: nat)
    requires Legal(Start(), steps) && id in Run(Start(), steps).verdicts
    ensures GivenAt(Start(), steps, n, id, Run(Start(), steps).verdicts[id])
  {
    var init := steps[..|steps| - 1];
    var t := Run(Start(), init);
    RunKeeps(Start(), init);
    if id in t.verdicts {
      n := VerdictWasGiven(init, id);
      StepKeepsVerdict(t, steps[|steps| - 1], id);
      assert init[..n] == steps[..n];
    } else {
      StepGives(t, steps[|steps| - 1], id);
      n := |steps| - 1;
    }
  }

  lemma {:induction false} GivenStays(steps: seq<Step>, n: nat, id: ActionId, v: Verdict)
    requires Legal(Start(), steps) && GivenAt(Start(), steps, n, id, v)
    ensures id in Run(Start(), steps).verdicts && Run(Start(), steps).verdicts[id] == v
  {
    var init := steps[..|steps| - 1];
    RunKeeps(Start(), init);
    if n == |init| {
      StepGives(Run(Start(), init), steps[n], id);
    } else {
      assert init[..n] == steps[..n];
      GivenStays(init, n, id, v);
      StepKeepsVerdict(Run(Start(), init), steps[|steps| - 1], id);
    }
  }

  /** Verdicts are final. */
  lemma {:induction false} VerdictsAreFinal(s: State, steps: seq<Step>, id: ActionId)
    requires Inv(s) && Legal(s, steps) && id in s.verdicts
    ensures id in Run(s, steps).verdicts && Run(s, steps).verdicts[id] == s.verdicts[id]
  {
    if steps != [] {
      var init := steps[..|steps| - 1];
      VerdictsAreFinal(s, init, id);
      RunKeeps(s, init);
      StepKeepsVerdict(Run(s, init), steps[|steps| - 1], id);
    }
  }

  lemma StepKeepsVerdict(s: State, step: Step, id: ActionId)
    requires Inv(s) && Enabled(s, step) && id in s.verdicts
    ensures id in Next(s, step).verdicts && Next(s, step).verdicts[id] == s.verdicts[id]
  {
    CountMember(s.settled, id);
    assert Places(s, id) <= 1;
    if step.NackAll? {
      CountMember(s.queues.async, id);
    } else if (step.Ask? || step.Hangup?) && s.clients[step.client].phase.Holding? {
      HeldOnce(s, step.client, step.client, s.clients[step.client].phase.id);
    }
  }

  /** A worker is handed an asynchronous action only if no live synchronous one was queued. */
  lemma FetchPrefersSync(s: State, c: nat, waiting: ActionId)
    requires Enabled(s, Fetch(c)) && waiting in s.queues.sync && waiting !in s.gone
    ensures Next(s, Fetch(c)).clients[c].phase.Sending?
    ensures Next(s, Fetch(c)).clients[c].phase.id in s.queues.sync && Next(s, Fetch(c)).clients[c].phase.id !in s.gone
  {
    SyncFirst(s.queues, s.gone, waiting);
    SkipsOnlyDead(s.queues, s.gone);
  }

  // ---------------------------------------------------------------- first in, first out

  function QueueOf(s: State, p: Priority): seq<ActionId> {
    match p
    case Sync => s.queues.sync
    case Async => s.queues.async
  }

  /** The elements of one sequence that are in another. */
  function Only(xs: seq<ActionId>, q: seq<ActionId>): seq<ActionId> {
    if xs == [] then []
    else
      var init := Only(xs[..|xs| - 1], q);
      if xs[|xs| - 1] in q then init + [xs[|xs| - 1]] else init
  }

  /** The action that a step puts into the queue of a class. */
  function Entering(s: State, step: Step, p: Priority): seq<ActionId> {
    if step == Submit(p) && !s.queues.closed then [s.created] else []
  }

  /** The actions that a step takes out of the queue of a class, in the order in which it takes them. */
  ghost function Leaving(s: State, step: Step, p: Priority): seq<ActionId> {
    match step
    case Fetch(_) => Only(Taken(Receive(s.queues, s.gone)), QueueOf(s, p))
    case NackAll => if p.Async? then s.queues.async else []
    case _ => []
  }

  lemma {:induction false} OnlyConcat(a: seq<ActionId>, b: seq<ActionId>, q: seq<ActionId>)
    ensures Only(a + b, q) == Only(a, q) + Only(b, q)
  {
    if b == [] {
      assert a + b == a;
    } else {
      assert (a + b)[..|a + b| - 1] == a + b[..|b| - 1];
      OnlyConcat(a, b[..|b| - 1], q);
    }
  }

  lemma {:induction false} OnlyInside(a: seq<ActionId>, q: seq<ActionId>)
    requires forall x :: x in a ==> x in q
    ensures Only(a, q) == a
  {
    if a != [] {
      assert forall x :: x in a[..|a| - 1] ==> x in a;
      OnlyInside(a[..|a| - 1], q);
    }
  }

  lemma {:induction false} OnlyOutside(a: seq<ActionId>, q: seq<ActionId>)
    requires forall x :: x in a ==> x !in q
    ensures Only(a, q) == []
  {
    if a != [] {
      assert forall x :: x in a[..|a| - 1] ==> x in a;
      OnlyOutside(a[..|a| - 1], q);
    }
  }

  lemma QueuesApart(s: State, x: ActionId)
    requires Inv(s) && x in s.queues.sync
    ensures x !in s.queues.async
  {
    CountMember(s.queues.sync, x);
    CountMember(s.queues.async, x);
    assert Places(s, x) <= 1;
  }

  lemma OnlyFronts(a: seq<ActionId>, b: seq<ActionId>, q: seq<ActionId>, r: seq<ActionId>)
    requires forall x :: x in q ==> x !in r
    requires (forall x :: x in a ==> x in q) && (forall x :: x in b ==> x in r)
    ensures Only(a + b, q) == a && Only(a + b, r) == b
  {
    OnlyConcat(a, b, q);
    OnlyInside(a, q);
    OnlyOutside(b, q);
    OnlyConcat(a, b, r);
    OnlyOutside(a, r);
    OnlyInside(b, r);
  }

  lemma FetchLeaves(s: State, c: nat, p: Priority)
    requires Inv(s) && Enabled(s, Fetch(c))
    ensures QueueOf(s, p) == Leaving(s, Fetch(c), p) + QueueOf(Next(s, Fetch(c)), p)
  {
    var a, b := TakesFronts(s.queues, s.gone);
    forall x | x in s.queues.sync ensures x !in s.queues.async {
      QueuesApart(s, x);
    }
    OnlyFronts(a, b, s.queues.sync, s.queues.async);
  }

  lemma StepQueues(s: State, step: Step, p: Priority)
    requires Inv(s) && Enabled(s, step)
    ensures QueueOf(s, p) + Entering(s, step, p) == Leaving(s, step, p) + QueueOf(Next(s, step), p)
  {
    if step.Fetch? {
      FetchLeaves(s, step.client, p);
    }
  }

  ghost function Entered(s: State, steps: seq<Step>, p: Priority): seq<ActionId>
    requires Legal(s, steps)
  {
    if steps == [] then []
    else Entered(s, steps[..|steps| - 1], p) + Entering(Run(s, steps[..|steps| - 1]), steps[|steps| - 1], p)
  }

  ghost function Left(s: State, steps: seq<Step>, p: Priority): seq<ActionId>
    requires Legal(s, steps)
  {
    if steps == [] then []
    else Left(s, steps[..|steps| - 1], p) + Leaving(Run(s, steps[..|steps| - 1]), steps[|steps| - 1], p)
  }

  lemma Regroup(q: seq<ActionId>, e: seq<ActionId>, l: seq<ActionId>, r: seq<ActionId>, e': seq<ActionId>, l': seq<ActionId>, r': seq<ActionId>)
    requires q + e == l + r && r + e' == l' + r'
    ensures q + (e + e') == (l + l') + r'
  {
    assert q + (e + e') == (q + e) + e' == l + (r + e') == (l + l') + r';
  }

  lemma {:induction false} QueuesConserved(s: State, steps: seq<Step>, p: Priority)
    requires Inv(s) && Legal(s, steps)
    ensures QueueOf(s, p) + Entered(s, steps, p) == Left(s, steps, p) + QueueOf(Run(s, steps), p)
  {
    if steps != [] {
      var init, last := steps[..|steps| - 1], steps[|steps| - 1];
      QueuesConserved(s, init, p);
      RunKeeps(s, init);
      var t := Run(s, init);
      StepQueues(t, last, p);
      Regroup(QueueOf(s, p), Entered(s, init, p), Left(s, init, p), QueueOf(t, p),
              Entering(t, last, p), Leaving(t, last, p), QueueOf(Next(t, last), p));
    }
  }

  /** Over every run, the actions taken out of the queue of a class are a prefix of those submitted to it. */
  lemma FifoOverRuns(steps: seq<Step>, p: Priority)
    requires Legal(Start(), steps)
    ensures Left(Start(), steps, p) <= Entered(Start(), steps, p)
    ensures Entered(Start(), steps, p) == Left(Start(), steps, p) + QueueOf(Run(Start(), steps), p)
  {
    QueuesConserved(Start(), steps, p);
    assert [] + Entered(Start(), steps, p) == Entered(Start(), steps, p);
  }

  // ---------------------------------------------------------------- the streams

  /** What a worker's stream brings in: a request, or an error that may or may not be passed on. */
  datatype Incoming = Arrived(request: Request, accepted: bool) | BrokenPipe | StreamError(passedOn: bool)

  /** Whether a request is answered with an action. */
  predicate Grants(request: Request, outstanding: bool) {
    match request
    case ForAction(Some(Initial)) => !outstanding
    case ForAction(Some(AckOrNack(Some(_)))) => outstanding
    case _ => false
  }

  /** Fetching an action and sending it. */
  ghost function FetchSteps(s: State, c: nat, accepted: bool): seq<Step> {
    match Receive(s.queues, s.gone).answer
    case Got(_) => [Fetch(c), Deliver(c, accepted)]
    case Closed => [Fetch(c)]
    case Waiting => [Fetch(c), TimeOut(c)]
  }

  /** What a stream does with one message. */
  ghost function IncomingSteps(s: State, c: nat, message: Incoming): seq<Step>
    requires c < |s.clients|
  {
    match message
    case Arrived(request, accepted) =>
      [Ask(c, request)] + if Grants(request, s.clients[c].phase.Holding?) then FetchSteps(s, c, accepted) else []
    case BrokenPipe => [Hangup(c)]
    case StreamError(passedOn) => if passedOn then [] else [Hangup(c)]
  }

  /** The steps that a message can lead to; which ones it does is up to the state they are legal in. */
  predicate Shape(message: Incoming, c: nat, steps: seq<Step>) {
    match message
    case Arrived(request, accepted) =>
      && steps != [] && steps[0] == Ask(c, request)
      && steps[1..] in {[], [Fetch(c)], [Fetch(c), TimeOut(c)], [Fetch(c), Deliver(c, accepted)]}
    case BrokenPipe => steps == [Hangup(c)]
    case StreamError(passedOn) => steps == if passedOn then [] else [Hangup(c)]
  }

  /** The turns of a stream answer its messages, one after the other. */
  ghost predicate Turns(messages: seq<Incoming>, c: nat, turns: seq<seq<Step>>) {
    |turns| <= |messages| && forall i :: 0 <= i < |turns| ==> Shape(messages[i], c, turns[i])
  }

  function Flat(turns: seq<seq<Step>>): seq<Step> {
    if turns == [] then [] else Flat(turns[..|turns| - 1]) + turns[|turns| - 1]
  }

  /** The steps of a schedule that can be taken when their turn comes. */
  ghost function Executable(s: State, schedule: seq<Step>): (steps: seq<Step>)
    ensures Legal(s, steps)
  {
    if schedule == [] then []
    else
      var init, last := Executable(s, schedule[..|schedule| - 1]), schedule[|schedule| - 1];
      if Enabled(Run(s, init), last) then RunMore(s, init, Run(s, init), last); init + [last] else init
  }

  class WorkerStreams {
    const queue: PriorityQueue
    var gone: set<ActionId>
    var created: nat
    var clients: seq<Client>
    ghost var settled: seq<ActionId>
    var verdicts: map<ActionId, Verdict>
    ghost var dropped: seq<ActionId>

    ghost function View(): State
      reads this, queue
    {
      State(queue.View(), created, gone, clients, settled, verdicts, dropped)
    }

    constructor (queue: PriorityQueue)
      requires queue.View() == Queues([], [], false)
      ensures this.queue == queue && View() == Start()
    {
      this.queue, gone, created, clients := queue, {}, 0, [];
      settled, verdicts, dropped := [], map[], [];
    }

    method Accept() returns (c: nat)
      modifies this`clients
      ensures View() == Next(old(View()), Connect) && c == |old(clients)|
    {
      c := |clients|;
      clients := clients + [Client(Idle, [])];
    }

    method Enqueue(priority: Priority) returns (id: ActionId)
      modifies this`created, this`dropped, queue
      ensures id == old(created) && View() == Next(old(View()), Submit(priority))
    {
      id := created;
      created := created + 1;
      var sent := queue.Send(id, priority);
      if !sent {
        dropped := dropped + [id];
      }
    }

    /** The hook at shutdown: nacks every asynchronous action. */
    method NackAllAsync()
      modifies this`settled, this`verdicts, queue
      ensures View() == Next(old(View()), NackAll)
    {
      var nacked := queue.NackAllAsync();
      settled := settled + nacked;
      verdicts := NackedAll(verdicts, nacked);
    }

    /** One poll for an action. */
    method Poll(c: nat)
      requires c < |clients| && clients[c].phase.Fetching?
      modifies this`clients, this`dropped, queue
      ensures View() == Next(old(View()), Fetch(c))
    {
      var answer, skipped := queue.Recv(gone);
      dropped := dropped + skipped;
      var phase := match answer case Got(id) => Sending(id) case Closed => Ended case Waiting => Fetching;
      clients := clients[c := clients[c].(phase := phase)];
    }

    /** Ends or advances a stream, settling or dropping what it holds. */
    method Conclude(c: nat, phase: Phase, outcome: Outcome)
      requires c < |clients|
      modifies this`clients, this`settled, this`verdicts, this`dropped
      ensures View() == Finish(old(View()), c, phase, outcome)
    {
      if clients[c].phase.Holding? {
        var id := clients[c].phase.id;
        match outcome {
          case Untouched =>
          case Settle(v) =>
            settled := settled + [id];
            verdicts := verdicts[id := v];
          case Discard => dropped := dropped + [id];
        }
      }
      clients := clients[c := clients[c].(phase := phase)];
    }

    /** Waits for an action; one that does not come in time ends the stream. */
    method FetchOne(c: nat) returns (ghost steps: seq<Step>)
      requires c < |clients| && clients[c].phase.Fetching?
      modifies this`clients, this`dropped, queue
      ensures |clients| == |old(clients)| && (clients[c].phase.Sending? || clients[c].phase.Ended?)
      ensures var answer := Receive(old(View()).queues, old(View()).gone).answer;
        && (clients[c].phase.Sending? <==> answer.Got?)
        && steps == [Fetch(c)] + if answer.Waiting? then [TimeOut(c)] else []
      ensures Did(old(View()), steps, View(), c)
    {
      ghost var before := View();
      Poll(c);
      DidOne(before, Fetch(c), c);
      steps := [Fetch(c)];
      if clients[c].phase.Fetching? {
        DidMore(before, steps, View(), TimeOut(c), c);
        clients := clients[c := clients[c].(phase := Ended)];
        steps := steps + [TimeOut(c)];
      }
    }

    method DeliverOne(c: nat, accepted: bool)
      requires c < |clients| && clients[c].phase.Sending?
      modifies this`clients, this`dropped
      ensures View() == Next(old(View()), Deliver(c, accepted))
    {
      var id := clients[c].phase.id;
      if accepted {
        clients := clients[c := Client(Holding(id), clients[c].sent + [id])];
      } else {
        clients := clients[c := clients[c].(phase := Ended)];
        dropped := dropped + [id];
      }
    }

    /** The action for a request that was granted one, fetched and sent. */
    method FetchAndSend(c: nat, accepted: bool) returns (ghost steps: seq<Step>)
      requires c < |clients| && clients[c].phase.Fetching?
      modifies this`clients, this`dropped, queue
      ensures |clients| == |old(clients)| && !clients[c].phase.Fetching? && !clients[c].phase.Sending?
      ensures Did(old(View()), steps, View(), c) && steps == FetchSteps(old(View()), c, accepted)
    {
      steps := FetchOne(c);
      if clients[c].phase.Sending? {
        DidMore(old(View()), steps, View(), Deliver(c, accepted), c);
        DeliverOne(c, accepted);
        steps := steps + [Deliver(c, accepted)];
      }
    }

    /** One message of a stream, from its arrival to the next action sent. */
    method HandleIncoming(c: nat, message: Incoming) returns (ghost steps: seq<Step>)
      requires c < |clients| && (clients[c].phase.Idle? || clients[c].phase.Holding?)
      modifies this`clients, this`settled, this`verdicts, this`dropped, queue
      ensures |clients| == |old(clients)| && !clients[c].phase.Fetching? && !clients[c].phase.Sending?
      ensures Did(old(View()), steps, View(), c) && steps == IncomingSteps(old(View()), c, message)
    {
      ghost var before := View();
      steps := [];
      match message {
        case Arrived(request, accepted) =>
          var handled := HandleRequest(request, clients[c].phase.Holding?);
          Conclude(c, handled.0, handled.1);
          DidOne(before, Ask(c, request), c);
          steps := [Ask(c, request)];
          if clients[c].phase.Fetching? {
            ghost var asked := View();
            ghost var more := FetchAndSend(c, accepted);
            DidBoth(before, steps, asked, more, View(), c);
            steps := steps + more;
          }
        case BrokenPipe =>
          Conclude(c, Ended, Discard);
          DidOne(before, Hangup(c), c);
          steps := [Hangup(c)];
        case StreamError(passedOn) =>
          if !passedOn {
            Conclude(c, Ended, Discard);
            DidOne(before, Hangup(c), c);
            steps := [Hangup(c)];
          }
      }
    }

    /** Whether the step can be taken now. */
    predicate CanTake(step: Step)
      reads this
      ensures CanTake(step) == Enabled(View(), step)
    {
      match step
      case Ask(c, _) => c < |clients| && (clients[c].phase.Idle? || clients[c].phase.Holding?)
      case Fetch(c) => c < |clients| && clients[c].phase.Fetching?
      case TimeOut(c) => c < |clients| && clients[c].phase.Fetching?
      case Deliver(c, _) => c < |clients| && clients[c].phase.Sending?
      case Hangup(c) => c < |clients| && (clients[c].phase.Idle? || clients[c].phase.Holding?)
      case Abandon(id) => id < created
      case _ => true
    }

    method Take(step: Step)
      requires CanTake(step)
      modifies this, queue
      ensures View() == Next(old(View()), step)
    {
      match step {
        case Submit(p) => var id := Enqueue(p);
        case Abandon(id) => gone := gone + {id};
        case Connect => var c := Accept();
        case Ask(c, request) =>
          var handled := HandleRequest(request, clients[c].phase.Holding?);
          Conclude(c, handled.0, handled.1);
        case Fetch(c) => Poll(c);
        case TimeOut(c) => clients := clients[c := clients[c].(phase := Ended)];
        case Deliver(c, accepted) => DeliverOne(c, accepted);
        case Hangup(c) => Conclude(c, Ended, Discard);
        case NackAll => NackAllAsync();
        case Close => queue.Close();
      }
    }

    /**
      Streams, requesters and the shutdown hook in any interleaving: what cannot happen is
      passed over, and all that happens is a run of the protocol.
    */
    method Interleave(schedule: seq<Step>) returns (ghost steps: seq<Step>)
      modifies this, queue
      ensures steps == Executable(old(View()), schedule) && View() == Run(old(View()), steps)
    {
      steps := [];
      for i := 0 to |schedule|
        invariant steps == Executable(old(View()), schedule[..i]) && View() == Run(old(View()), steps)
      {
        assert schedule[..i + 1][..i] == schedule[..i];
        if CanTake(schedule[i]) {
          RunMore(old(View()), steps, View(), schedule[i]);
          Take(schedule[i]);
          steps := steps + [schedule[i]];
        }
      }
      assert schedule[..|schedule|] == schedule;
    }

    /**
      A stream from its first message to its last: all it does is a run of steps of that
      client, message by message, and it hangs up after the last if it had not ended before.
    */
    method StreamTask(c: nat, messages: seq<Incoming>) returns (ghost steps: seq<Step>, ghost turns: seq<seq<Step>>)
      requires c < |clients| && clients[c].phase.Idle?
      modifies this`clients, this`settled, this`verdicts, this`dropped, queue
      ensures |clients| == |old(clients)| && clients[c].phase.Ended?
      ensures Did(old(View()), steps, View(), c) && Turns(messages, c, turns)
      ensures steps == Flat(turns) || (|turns| == |messages| && steps == Flat(turns) + [Hangup(c)])
    {
      steps, turns := [], [];
      ghost var start := View();
      for i := 0 to |messages|
        invariant |clients| == |old(clients)| && !clients[c].phase.Fetching? && !clients[c].phase.Sending?
        invariant Did(start, steps, View(), c)
        invariant |turns| == i && Turns(messages, c, turns) && steps == Flat(turns)
      {
        if clients[c].phase.Ended? {
          return;
        }
        ghost var before := View();
        ghost var more := HandleIncoming(c, messages[i]);
        ShapeOfTurn(before, c, messages[i]);
        DidBoth(start, steps, before, more, View(), c);
        assert (turns + [more])[..i] == turns;
        steps, turns := steps + more, turns + [more];
      }
      if !clients[c].phase.Ended? {
        DidMore(start, steps, View(), Hangup(c), c);
        Conclude(c, Ended, Discard);
        steps := steps + [Hangup(c)];
      }
    }
  }

  lemma ShapeOfTurn(s: State, c: nat, message: Incoming)
    requires c < |s.clients|
    ensures Shape(message, c, IncomingSteps(s, c, message))
  {
  }

  /** The step is taken by this client's stream. */
  predicate By(step: Step, c: nat) {
    match step
    case Ask(d, _) => d == c
    case Fetch(d) => d == c
    case TimeOut(d) => d == c
    case Deliver(d, _) => d == c
    case Hangup(d) => d == c
    case _ => false
  }

  /** A run of steps of this client leads from one state to the other. */
  ghost predicate Did(s: State, steps: seq<Step>, t: State, c: nat) {
    Legal(s, steps) && t == Run(s, steps) && forall step :: step in steps ==> By(step, c)
  }

  lemma DidMore(s: State, steps: seq<Step>, t: State, step: Step, c: nat)
    requires Did(s, steps, t, c) && Enabled(t, step) && By(step, c)
    ensures Did(s, steps + [step], Next(t, step), c)
  {
    RunMore(s, steps, t, step);
  }

  lemma DidOne(s: State, step: Step, c: nat)
    requires Enabled(s, step) && By(step, c)
    ensures Did(s, [step], Next(s, step), c)
  {
    DidMore(s, [], s, step, c);
    assert [] + [step] == [step];
  }

  lemma {:induction false} DidBoth(s: State, steps: seq<Step>, t: State, more: seq<Step>, u: State, c: nat)
    requires Did(s, steps, t, c) && Did(t, more, u, c)
    ensures Did(s, steps + more, u, c)
    decreases |more|
  {
    if more == [] {
      assert steps + more == steps;
    } else {
      var init, last := more[..|more| - 1], more[|more| - 1];
      assert Did(t, init, Run(t, init), c);
      DidBoth(s, steps, t, init, Run(t, init), c);
      DidMore(s, steps + init, Run(t, init), last, c);
      assert (steps + init) + [last] == steps + more;
    }
  }

  /** What a stream does leaves the other workers alone, and adds to what is settled and dropped. */
  lemma StepByClient(s: State, step: Step, c: nat)
    requires Enabled(s, step) && By(step, c)
    ensures var t := Next(s, step);
      && |t.clients| == |s.clients| && t.created == s.created
      && (forall d :: 0 <= d < |s.clients| && d != c ==> t.clients[d] == s.clients[d])
      && s.settled <= t.settled && s.dropped <= t.dropped
  {
  }

  lemma {:induction false} StreamLeavesOthers(s: State, steps: seq<Step>, t: State, c: nat)
    requires Did(s, steps, t, c)
    ensures |t.clients| == |s.clients| && t.created == s.created
    ensures forall d :: 0 <= d < |s.clients| && d != c ==> t.clients[d] == s.clients[d]
    ensures s.settled <= t.settled && s.dropped <= t.dropped
  {
    if steps != [] {
      var init := steps[..|steps| - 1];
      assert forall step :: step in init ==> step in steps;
      StreamLeavesOthers(s, init, Run(s, init), c);
      StepByClient(Run(s, init), steps[|steps| - 1], c);
    }
  }
}
