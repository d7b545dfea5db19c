/** Stopping the streaming pull manager: what accepting a stop does, and that the main loop can then always exit. */
module PullShutdown {
  import opened Options
  import opened PullTypes
  import opened Counting
  import opened PullProtocol
  import opened PullTheorems
  import O = PullOrdering
  import A = PullAcks

  /** The names of different ids are counted with them. */
  lemma NamesHeld(serverIds: seq<ServerId>, ids: seq<AckId>, u: ServerId)
    requires Distinct(ids) && forall i :: 0 <= i < |ids| ==> 1 <= ids[i] <= |serverIds|
    ensures Count(A.Names(serverIds, ids), u) == A.HeldCount(serverIds, Elements(ids), u)
  {
    A.HeldRelease(serverIds, Elements(ids), ids, u);
    A.HeldNone(serverIds, u);
    assert Elements(ids) - Elements(ids) == {};
  }

  /**
    Accepting a stop closes the stream, empties the hold, and nacks every message that was
    on hold, once. What is in flight stays there.
  */
  lemma StopAccepted(m: Manager, order: seq<string>, u: ServerId)
    requires CoreInv(m) && !m.sched.stopping && O.IsOrder(order, m.sched.hold.pending.Keys)
    ensures var t := HandleGracefulStop(m, order);
      && t.sched.stopping && !t.open
      && t.sched.hold == O.EMPTY_HOLD && t.sched.flight == m.sched.flight && t.sched.dispatched == m.sched.dispatched
      && A.AckedCount(t.books.ledger.requests, u) == A.AckedCount(m.books.ledger.requests, u)
      && A.NackedCount(t.books.ledger.requests, u)
         == A.NackedCount(m.books.ledger.requests, u) + A.HeldCount(m.books.ledger.serverIds, O.HoldIds(m.sched.hold), u)
  {
    var t, ids := HandleGracefulStop(m, order), O.Ids(O.Drained(m.sched.hold, order));
    var l, l' := m.books.ledger, t.books.ledger;
    HandleGracefulStopKeeps(m, order);
    A.ReleaseFrame(m.books, ids);
    assert A.Requested(l, u) && A.Requested(l', u);
    A.NamesConcat(l.serverIds, l.released, ids);
    CountConcat(A.Names(l.serverIds, l.released), A.Names(l.serverIds, ids), u);
    O.DrainedOnce(m.sched, order);
    assert Elements(ids) == O.HoldIds(m.sched.hold);
    forall i | 0 <= i < |ids| ensures 1 <= ids[i] <= |l.serverIds| {
      assert ids[i] in ids;
      assert Linked(m, ids[i]);
    }
    NamesHeld(l.serverIds, ids, u);
  }

  // ---------------------------------------------------------------- the way to the exit

  lemma RunMore(s: System, actions: seq<Action>, t: System, a: Action)
    requires Legal(s, actions) && t == Run(s, actions) && Enabled(t, a)
    ensures Legal(s, actions + [a]) && Run(s, actions + [a]) == Step(t, a)
  {
    assert (actions + [a])[..|actions|] == actions;
  }

  lemma LastOf(s: System, actions: seq<Action>) returns (init: seq<Action>, a: Action, t: System)
    requires Legal(s, actions) && actions != []
    ensures actions == init + [a] && Legal(s, init) && t == Run(s, init) && Enabled(t, a) && Run(s, actions) == Step(t, a)
  {
    init, a := actions[..|actions| - 1], actions[|actions| - 1];
    t := Run(s, init);
  }

  lemma {:induction false} RunBoth(s: System, first: seq<Action>, mid: System, second: seq<Action>)
    requires Legal(s, first) && mid == Run(s, first) && Legal(mid, second)
    ensures Legal(s, first + second) && Run(s, first + second) == Run(mid, second)
    decreases |second|
  {
    if second == [] {
      assert first + second == first;
    } else {
      var init, a, t := LastOf(mid, second);
      RunBoth(s, first, mid, init);
      RunMore(s, first + init, t, a);
      assert (first + init) + [a] == first + second;
    }
  }

  lemma RunOne(s: System, a: Action)
    requires Enabled(s, a)
    ensures Legal(s, [a]) && Run(s, [a]) == Step(s, a)
  {
    assert [a][..0] == [];
  }

  lemma RunFirst(s: System, a: Action, rest: seq<Action>)
    requires Enabled(s, a) && Legal(Step(s, a), rest)
    ensures Legal(s, [a] + rest) && Run(s, [a] + rest) == Run(Step(s, a), rest)
  {
    RunOne(s, a);
    RunBoth(s, [a], Step(s, a), rest);
  }

  /** After an accepted stop, taking mail hands out nothing. */
  lemma MailHandsNothing(s: System, order: seq<string>)
    requires SystemInv(s) && s.manager.sched.stopping && Enabled(s, Receive(order))
    ensures Step(s, Receive(order)).outside == s.outside && |Step(s, Receive(order)).mailbox| == |s.mailbox| - 1
  {
    StopStep(s, Receive(order));
    var m' := HandleMessage(s.manager, s.mailbox[0], order);
    assert m'.sched.dispatched[|s.manager.sched.dispatched|..] == [];
  }

  /** With nothing outside and no mail, nothing is in flight. */
  lemma FlightOver(s: System)
    requires SystemInv(s) && s.outside == {} && s.mailbox == []
    ensures s.manager.sched.flight == map[]
  {
    forall id ensures id !in s.manager.sched.flight {
      assert MailOk(s, id);
    }
    assert s.manager.sched.flight.Keys == {};
  }

  /** Nearer to the exit: less outside; or as much, and less mail; and so on down to the background requests. */
  ghost predicate Nearer(s: System, t: System) {
    var q, q' := |A.Waiting(s.manager.books.queue)|, |A.Waiting(t.manager.books.queue)|;
    || |t.outside| < |s.outside|
    || (|t.outside| == |s.outside| && |t.mailbox| < |s.mailbox|)
    || (|t.outside| == |s.outside| && |t.mailbox| == |s.mailbox| && q' < q)
    || (|t.outside| == |s.outside| && |t.mailbox| == |s.mailbox| && q' == q && t.manager.background < s.manager.background)
  }

  lemma FlushNearer(s: System)
    requires SystemInv(s) && !A.NothingQueued(s.manager.books.queue)
    ensures Nearer(s, Step(s, FlushChunk))
  {
    A.NextChunkTakes(s.manager.books.queue);
  }

  /** After an accepted stop, short of the exit, something can happen that brings the exit nearer. */
  lemma Progress(s: System) returns (a: Action)
    requires SystemInv(s) && s.manager.sched.stopping && !ShouldStop(s.manager)
    ensures Enabled(s, a) && Nearer(s, Step(s, a)) && Step(s, a).manager.sched.stopping
  {
    if s.outside != {} {
      var id :| id in s.outside;
      a := Settle(Nack(id));
      assert |s.outside - {id}| == |s.outside| - 1;
    } else if s.mailbox != [] {
      a := Receive([]);
      MailHandsNothing(s, []);
      StopStep(s, a);
    } else if !A.NothingQueued(s.manager.books.queue) {
      a := FlushChunk;
      FlushNearer(s);
    } else {
      FlightOver(s);
      a := BackgroundDone;
    }
  }

  /** After an accepted stop the main loop can always reach its exit. */
  lemma {:induction false} StopCanFinish(s: System) returns (actions: seq<Action>)
    requires SystemInv(s) && s.manager.sched.stopping
    ensures Legal(s, actions) && ShouldStop(Run(s, actions).manager)
    decreases |s.outside|, |s.mailbox|, |A.Waiting(s.manager.books.queue)|, s.manager.background
  {
    actions := [];
    if !ShouldStop(s.manager) {
      var a := Progress(s);
      StepKeeps(s, a);
      var rest := StopCanFinish(Step(s, a));
      RunFirst(s, a, rest);
      actions := [a] + rest;
    }
  }

  lemma {:induction false} SomeOrder(keys: set<string>) returns (order: seq<string>)
    ensures O.IsOrder(order, keys)
  {
    order := [];
    if k :| k in keys {
      var rest := SomeOrder(keys - {k});
      order := rest + [k];
      assert forall j :: j in order <==> j in rest || j == k;
    }
  }

  /** A stop that waits in the mailbox can be taken. */
  lemma {:induction false} StopCanBeTaken(s: System) returns (actions: seq<Action>)
    requires SystemInv(s) && (GracefulStop in s.mailbox || s.manager.sched.stopping)
    ensures Legal(s, actions) && Run(s, actions).manager.sched.stopping
    decreases |s.mailbox|
  {
    actions := [];
    if !s.manager.sched.stopping {
      var order := SomeOrder(s.manager.sched.hold.pending.Keys);
      var a := Receive(order);
      StepKeeps(s, a);
      assert s.mailbox == [s.mailbox[0]] + s.mailbox[1..];
      if s.mailbox[0].Verdict? {
        FlushLimit(O.Finish(s.manager.sched, s.mailbox[0].verdict.id));
      }
      var rest := StopCanBeTaken(Step(s, a));
      RunFirst(s, a, rest);
      actions := [a] + rest;
    }
  }

  /** From every reachable state, asking for a stop can be followed by the exit of the main loop. */
  lemma ExitIsReachable(s: System) returns (actions: seq<Action>)
    requires SystemInv(s)
    ensures actions != [] && actions[0] == AskStop
    ensures Legal(s, actions) && ShouldStop(Run(s, actions).manager)
  {
    var t := Step(s, AskStop);
    StepKeeps(s, AskStop);
    assert t.mailbox[|s.mailbox|] == GracefulStop;
    var taken := StopCanBeTaken(t);
    RunKeeps(t, taken);
    var finish := StopCanFinish(Run(t, taken));
    RunBoth(t, taken, Run(t, taken), finish);
    RunFirst(s, AskStop, taken + finish);
    actions := [AskStop] + (taken + finish);
  }
}
