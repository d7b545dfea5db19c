/** The queue of actions: synchronous ones first, and none whose requester has gone away. */
module PriorityQueue {
  import opened Counting

  type ActionId = nat

  datatype Priority = Sync | Async

  datatype Queues = Queues(sync: seq<ActionId>, async: seq<ActionId>, closed: bool)

  datatype Received = Got(id: ActionId) | Closed | Waiting

  /** What a receive does: its answer, the actions it skipped, and what is left. */
  datatype Receipt = Receipt(answer: Received, skipped: seq<ActionId>, left: Queues)

  /** How many actions at the front have no requester any more. */
  function DeadPrefix(q: seq<ActionId>, gone: set<ActionId>): nat {
    if q == [] || q[0] !in gone then 0 else 1 + DeadPrefix(q[1..], gone)
  }

  lemma {:induction false} DeadPrefixIs(q: seq<ActionId>, gone: set<ActionId>)
    ensures DeadPrefix(q, gone) <= |q|
    ensures forall i :: 0 <= i < DeadPrefix(q, gone) ==> q[i] in gone
    ensures DeadPrefix(q, gone) < |q| ==> q[DeadPrefix(q, gone)] !in gone
  {
    if q != [] && q[0] in gone {
      DeadPrefixIs(q[1..], gone);
    }
  }

  /** The reference for `recv`: the first live synchronous action, else the first live asynchronous one. */
  ghost function Receive(qs: Queues, gone: set<ActionId>): Receipt {
    var i := DeadPrefix(qs.sync, gone);
    var j := DeadPrefix(qs.async, gone);
    DeadPrefixIs(qs.sync, gone);
    DeadPrefixIs(qs.async, gone);
    if i < |qs.sync| then Receipt(Got(qs.sync[i]), qs.sync[..i], qs.(sync := qs.sync[i + 1..]))
    else if qs.closed then Receipt(Closed, qs.sync, qs.(sync := []))
    else if j < |qs.async| then Receipt(Got(qs.async[j]), qs.sync + qs.async[..j], qs.(sync := [], async := qs.async[j + 1..]))
    else Receipt(Waiting, qs.sync + qs.async, qs.(sync := [], async := []))
  }

  function AlsoSkipped(r: Receipt, before: seq<ActionId>): Receipt {
    r.(skipped := before + r.skipped)
  }

  lemma AlsoSkippedOne(r: Receipt, before: seq<ActionId>, id: ActionId)
    ensures AlsoSkipped(AlsoSkipped(r, [id]), before) == AlsoSkipped(r, before + [id])
  {
    assert before + ([id] + r.skipped) == before + [id] + r.skipped;
  }

  /** Skipping a dead action at the front does not change the answer. */
  lemma SkipSync(qs: Queues, gone: set<ActionId>)
    requires qs.sync != [] && qs.sync[0] in gone
    ensures Receive(qs, gone) == AlsoSkipped(Receive(qs.(sync := qs.sync[1..]), gone), [qs.sync[0]])
  {
    var rest := Receive(qs.(sync := qs.sync[1..]), gone);
    DeadPrefixIs(qs.sync, gone);
    DeadPrefixIs(qs.sync[1..], gone);
    assert Receive(qs, gone).skipped == [qs.sync[0]] + rest.skipped;
  }

  lemma SkipAsync(qs: Queues, gone: set<ActionId>)
    requires qs.sync == [] && !qs.closed && qs.async != [] && qs.async[0] in gone
    ensures Receive(qs, gone) == AlsoSkipped(Receive(qs.(async := qs.async[1..]), gone), [qs.async[0]])
  {
    var rest := Receive(qs.(async := qs.async[1..]), gone);
    DeadPrefixIs(qs.async, gone);
    DeadPrefixIs(qs.async[1..], gone);
    assert Receive(qs, gone).skipped == [qs.async[0]] + rest.skipped;
  }

  /** With no dead action in front, the answer is immediate. */
  lemma NothingToSkip(qs: Queues, gone: set<ActionId>)
    ensures qs.sync != [] && qs.sync[0] !in gone ==>
      Receive(qs, gone) == Receipt(Got(qs.sync[0]), [], qs.(sync := qs.sync[1..]))
    ensures qs.sync == [] && qs.closed ==> Receive(qs, gone) == Receipt(Closed, [], qs)
    ensures qs.sync == [] && !qs.closed && qs.async != [] && qs.async[0] !in gone ==>
      Receive(qs, gone) == Receipt(Got(qs.async[0]), [], qs.(async := qs.async[1..]))
    ensures qs.sync == [] && !qs.closed && qs.async == [] ==> Receive(qs, gone) == Receipt(Waiting, [], qs)
  {
  }

  class PriorityQueue {
    var sync: seq<ActionId>
    var async: seq<ActionId>
    var closed: bool

    ghost function View(): Queues
      reads this
    {
      Queues(sync, async, closed)
    }

    constructor ()
      ensures View() == Queues([], [], false)
    {
      sync, async, closed := [], [], false;
    }

    method Close()
      modifies this`closed
      ensures closed
    {
      closed := true;
    }

    method Send(id: ActionId, priority: Priority) returns (sent: bool)
      modifies this`sync, this`async
      ensures sent == !closed
      ensures View() == Sent(old(View()), id, priority)
    {
      if closed {
        return false;
      }
      match priority {
        case Sync => sync := sync + [id];
        case Async => async := async + [id];
      }
      sent := true;
    }

    /** One poll of the receiver: every turn of its loop takes an action out of the queue. */
    method Recv(gone: set<ActionId>) returns (answer: Received, skipped: seq<ActionId>)
      modifies this`sync, this`async
      ensures Receipt(answer, skipped, View()) == Receive(old(View()), gone)
    {
      skipped := [];
      ghost var start := Receive(View(), gone);
      while true
        invariant closed == old(closed)
        invariant start == AlsoSkipped(Receive(View(), gone), skipped)
        decreases |sync| + |async|
      {
        ghost var before := View();
        NothingToSkip(before, gone);
        if sync != [] {
          var id := sync[0];
          sync := sync[1..];
          if id !in gone {
            return Got(id), skipped;
          }
          SkipSync(before, gone);
          AlsoSkippedOne(Receive(View(), gone), skipped, id);
          skipped := skipped + [id];
        } else if closed {
          return Closed, skipped;
        } else if async != [] {
          var id := async[0];
          async := async[1..];
          if id !in gone {
            return Got(id), skipped;
          }
          SkipAsync(before, gone);
          AlsoSkippedOne(Receive(View(), gone), skipped, id);
          skipped := skipped + [id];
        } else {
          return Waiting, skipped;
        }
      }
    }

    /** Empties the asynchronous queue, nacking its actions in order. */
    method NackAllAsync() returns (nacked: seq<ActionId>)
      modifies this`async
      ensures nacked == old(async) && async == []
    {
      nacked := [];
      while async != []
        invariant nacked + async == old(async)
        decreases |async|
      {
        nacked := nacked + [async[0]];
        async := async[1..];
      }
    }
  }

  function Sent(qs: Queues, id: ActionId, priority: Priority): Queues {
    if qs.closed then qs
    else
      match priority
      case Sync => qs.(sync := qs.sync + [id])
      case Async => qs.(async := qs.async + [id])
  }

  // ---------------------------------------------------------------- what a receive promises

  /** An asynchronous action is handed out only when no live synchronous one is queued. */
  lemma SyncFirst(qs: Queues, gone: set<ActionId>, id: ActionId)
    requires id in qs.sync && id !in gone
    ensures Receive(qs, gone).answer.Got? && Receive(qs, gone).answer.id in qs.sync
    ensures Receive(qs, gone).left.async == qs.async
  {
    DeadPrefixIs(qs.sync, gone);
  }

  ghost predicate AllDead(q: seq<ActionId>, gone: set<ActionId>) {
    forall x :: x in q ==> x in gone
  }

  /** A closed queue still hands out its live synchronous actions, an open one waits only when nothing is live. */
  lemma AnswerIs(qs: Queues, gone: set<ActionId>)
    ensures Receive(qs, gone).answer.Closed? <==> qs.closed && AllDead(qs.sync, gone)
    ensures Receive(qs, gone).answer.Waiting? <==> !qs.closed && AllDead(qs.sync, gone) && AllDead(qs.async, gone)
  {
    DeadPrefixIs(qs.sync, gone);
    DeadPrefixIs(qs.async, gone);
  }

  /** What is handed out is the first live action of its class. */
  lemma FirstLiveIsGot(qs: Queues, gone: set<ActionId>, i: nat)
    ensures i < |qs.sync| && qs.sync[i] !in gone && AllDead(qs.sync[..i], gone) ==> Receive(qs, gone).answer == Got(qs.sync[i])
    ensures !qs.closed && AllDead(qs.sync, gone) && i < |qs.async| && qs.async[i] !in gone && AllDead(qs.async[..i], gone)
      ==> Receive(qs, gone).answer == Got(qs.async[i])
  {
    FirstLiveAt(qs.sync, gone, i);
    FirstLiveAt(qs.async, gone, i);
    DeadPrefixIs(qs.sync, gone);
  }

  lemma FirstLiveAt(q: seq<ActionId>, gone: set<ActionId>, i: nat)
    ensures i < |q| && q[i] !in gone && AllDead(q[..i], gone) ==> DeadPrefix(q, gone) == i
  {
    DeadPrefixIs(q, gone);
    var n := DeadPrefix(q, gone);
    if i < |q| && q[i] !in gone && n < i {
      assert q[..i][n] == q[n];
    }
  }

  /** Only dead actions are skipped, and what is handed out is live. */
  lemma SkipsOnlyDead(qs: Queues, gone: set<ActionId>)
    ensures forall x :: x in Receive(qs, gone).skipped ==> x in gone
    ensures Receive(qs, gone).answer.Got? ==> Receive(qs, gone).answer.id !in gone
  {
    DeadPrefixIs(qs.sync, gone);
    DeadPrefixIs(qs.async, gone);
  }

  /** What a receive takes out of the queue, in order. */
  function Taken(r: Receipt): seq<ActionId> {
    r.skipped + if r.answer.Got? then [r.answer.id] else []
  }

  lemma Regroup(a: seq<ActionId>, b: seq<ActionId>, c: seq<ActionId>, d: seq<ActionId>)
    requires b == [] || c == []
    ensures (a + c) + (b + d) == (a + b) + c + d
  {
  }

  /** First in, first out: the actions taken are the front of the two queues, synchronous before asynchronous. */
  lemma TakesFromFront(qs: Queues, gone: set<ActionId>)
    ensures qs.sync + qs.async == Taken(Receive(qs, gone)) + Receive(qs, gone).left.sync + Receive(qs, gone).left.async
  {
    var a, b := TakesFronts(qs, gone);
    Regroup(a, b, Receive(qs, gone).left.sync, Receive(qs, gone).left.async);
  }

  /** What is taken is a front of the synchronous queue and then a front of the asynchronous one. */
  lemma TakesFronts(qs: Queues, gone: set<ActionId>) returns (a: seq<ActionId>, b: seq<ActionId>)
    ensures Taken(Receive(qs, gone)) == a + b
    ensures qs.sync == a + Receive(qs, gone).left.sync && qs.async == b + Receive(qs, gone).left.async
    ensures b == [] || Receive(qs, gone).left.sync == []
  {
    DeadPrefixIs(qs.sync, gone);
    DeadPrefixIs(qs.async, gone);
    var i, j := DeadPrefix(qs.sync, gone), DeadPrefix(qs.async, gone);
    if i < |qs.sync| {
      Around(qs.sync, i);
      a, b := qs.sync[..i] + [qs.sync[i]], [];
    } else if qs.closed {
      a, b := qs.sync, [];
    } else if j < |qs.async| {
      Around(qs.async, j);
      a, b := qs.sync, qs.async[..j] + [qs.async[j]];
    } else {
      a, b := qs.sync, qs.async;
    }
  }

  lemma Around(q: seq<ActionId>, i: nat)
    requires i < |q|
    ensures q == q[..i] + [q[i]] + q[i + 1..]
  {
  }

  /** No action is lost or doubled by a receive. */
  lemma ReceiveCount(qs: Queues, gone: set<ActionId>, x: ActionId)
    ensures var r := Receive(qs, gone);
      Count(qs.sync, x) + Count(qs.async, x)
        == Count(r.left.sync, x) + Count(r.left.async, x) + Count(r.skipped, x)
           + if r.answer == Got(x) then 1 else 0
  {
    var r := Receive(qs, gone);
    TakesFromFront(qs, gone);
    CountConcat(qs.sync, qs.async, x);
    CountConcat(Taken(r) + r.left.sync, r.left.async, x);
    CountConcat(Taken(r), r.left.sync, x);
    if r.answer.Got? {
      CountAppend(r.skipped, r.answer.id, x);
    } else {
      assert Taken(r) == r.skipped;
    }
  }
}
