/**
  A request over many keys, split by the instance each key routes to, sent to every
  instance, and merged back into the order of the keys.
*/
module FanOut {
  import opened Options
  import opened Counting
  import opened Sorting

  /** The routing of each key of a request, in the order of the keys. */
  type Routes = seq<Result<string, string>>

  datatype Chunk<K> = Chunk(indices: seq<nat>, keys: seq<K>)

  datatype Status = Unavailable(message: string) | Failed(code: nat)

  /** The positions before `n` that route to an instance. */
  function Positions(routes: Routes, n: nat, to: string): seq<nat>
    requires n <= |routes|
  {
    if n == 0 then []
    else if routes[n - 1] == Ok(to) then Positions(routes, n - 1, to) + [n - 1]
    else Positions(routes, n - 1, to)
  }

  lemma {:induction false} PositionsGrow(routes: Routes, m: nat, n: nat, to: string)
    requires m <= n <= |routes|
    ensures Positions(routes, m, to) <= Positions(routes, n, to)
    decreases n
  {
    if m < n {
      PositionsGrow(routes, m, n - 1, to);
    }
  }

  /** The first n keys, split: every instance has the chunk it should, and none if no key routes to it. */
  ghost predicate Split<K>(keys: seq<K>, routes: Routes, n: nat, chunks: map<string, Chunk<K>>)
    requires n <= |routes| == |keys|
  {
    forall to :: HasChunk(keys, routes, n, chunks, to)
  }

  ghost predicate HasChunk<K>(keys: seq<K>, routes: Routes, n: nat, chunks: map<string, Chunk<K>>, to: string)
    requires n <= |routes| == |keys|
  {
    if to in chunks then Positions(routes, n, to) != [] && ChunkFor(keys, routes, n, to, chunks[to])
    else Positions(routes, n, to) == []
  }

  ghost predicate ChunkFor<K>(keys: seq<K>, routes: Routes, n: nat, to: string, chunk: Chunk<K>)
    requires n <= |routes| == |keys|
  {
    && chunk.indices == Positions(routes, n, to)
    && |chunk.keys| == |chunk.indices|
    && forall p :: 0 <= p < |chunk.indices| ==> chunk.indices[p] < |keys| && chunk.keys[p] == keys[chunk.indices[p]]
  }

  /** The chunk of an instance with one key more. */
  function Extended<K>(chunks: map<string, Chunk<K>>, to: string, i: nat, key: K): Chunk<K> {
    if to in chunks then Chunk(chunks[to].indices + [i], chunks[to].keys + [key]) else Chunk([i], [key])
  }

  lemma SplitOneMore<K>(keys: seq<K>, routes: Routes, i: nat, chunks: map<string, Chunk<K>>)
    requires i < |routes| == |keys| && routes[i].Ok? && Split(keys, routes, i, chunks)
    ensures Split(keys, routes, i + 1, chunks[routes[i].value := Extended(chunks, routes[i].value, i, keys[i])])
  {
    var to := routes[i].value;
    var chunks' := chunks[to := Extended(chunks, to, i, keys[i])];
    var n := i + 1;
    assert Positions(routes, n, to) == Positions(routes, i, to) + [i];
    forall t ensures HasChunk(keys, routes, n, chunks', t) {
      assert HasChunk(keys, routes, i, chunks, t);
    }
  }

  /** Groups the keys by instance, remembering where each one was. */
  method SplitKeys<K>(keys: seq<K>, routes: Routes) returns (r: Result<map<string, Chunk<K>>, string>)
    requires |routes| == |keys|
    ensures r.Err? <==> exists i :: 0 <= i < |routes| && routes[i].Err?
    ensures r.Err? ==> exists i :: 0 <= i < |routes| && routes[i] == Err(r.error)
    ensures r.Ok? ==> Split(keys, routes, |keys|, r.value)
  {
    var chunks: map<string, Chunk<K>> := map[];
    for i := 0 to |keys|
      invariant Split(keys, routes, i, chunks)
      invariant forall j :: 0 <= j < i ==> routes[j].Ok?
    {
      if routes[i].Err? {
        return Err(routes[i].error);
      }
      SplitOneMore(keys, routes, i, chunks);
      chunks := chunks[routes[i].value := Extended(chunks, routes[i].value, i, keys[i])];
    }
    r := Ok(chunks);
  }

  // ---------------------------------------------------------------- merging

  /** A value with the position of the key it answers. */
  datatype Tagged<V> = Tagged(index: nat, value: V)

  /** Pairs up two sequences, as far as the shorter one goes. */
  function Zip<V>(indices: seq<nat>, values: seq<V>): seq<Tagged<V>> {
    var n := if |indices| < |values| then |indices| else |values|;
    seq(n, i requires 0 <= i < n => Tagged(indices[i], values[i]))
  }

  lemma ZipOneMore<V>(indices: seq<nat>, i: nat, values: seq<V>)
    ensures Zip(indices + [i], values)
         == if |indices| < |values| then Zip(indices, values) + [Tagged(i, values[|indices|])] else Zip(indices, values)
  {
  }

  /** The value that comes back for a key, if its instance answered for that many keys. */
  function Reply<V>(routes: Routes, answers: map<string, seq<V>>, i: nat): Option<V>
    requires i < |routes|
  {
    if routes[i].Err? || routes[i].value !in answers then None
    else
      var answer, p := answers[routes[i].value], |Positions(routes, i, routes[i].value)|;
      if p < |answer| then Some(answer[p]) else None
  }

  /** The replies that came back for the first n keys, in the order of the keys. */
  function Replies<V>(routes: Routes, answers: map<string, seq<V>>, n: nat): seq<Tagged<V>>
    requires n <= |routes|
  {
    if n == 0 then []
    else
      match Reply(routes, answers, n - 1)
      case Some(v) => Replies(routes, answers, n - 1) + [Tagged(n - 1, v)]
      case None => Replies(routes, answers, n - 1)
  }

  function Values<V>(pairs: seq<Tagged<V>>): seq<V> {
    seq(|pairs|, i requires 0 <= i < |pairs| => pairs[i].value)
  }

  function Index<V>(): Tagged<V> -> nat {
    (t: Tagged<V>) => t.index
  }

  lemma {:induction false} RepliesAscend<V>(routes: Routes, answers: map<string, seq<V>>, n: nat)
    requires n <= |routes|
    ensures StrictlyAscending(Replies(routes, answers, n), Index())
    ensures forall p :: 0 <= p < |Replies(routes, answers, n)| ==> Replies(routes, answers, n)[p].index < n
  {
    if n > 0 {
      RepliesAscend(routes, answers, n - 1);
    }
  }

  /** A key's reply is among the first n replies once, and nothing else is. */
  lemma {:induction false} RepliesCount<V>(routes: Routes, answers: map<string, seq<V>>, n: nat, x: Tagged<V>)
    requires n <= |routes|
    ensures Count(Replies(routes, answers, n), x)
         == if x.index < n && Reply(routes, answers, x.index) == Some(x.value) then 1 else 0
  {
    if n > 0 {
      RepliesCount(routes, answers, n - 1, x);
      match Reply(routes, answers, n - 1) {
        case Some(v) => CountAppend(Replies(routes, answers, n - 1), Tagged(n - 1, v), x);
        case None =>
      }
    }
  }

  /** Whether this is the reply for one of the first n keys, and from this instance. */
  ghost function IsReply<V>(routes: Routes, answers: map<string, seq<V>>, n: nat, to: string, x: Tagged<V>): nat
    requires n <= |routes|
  {
    if x.index < n && routes[x.index] == Ok(to) && Reply(routes, answers, x.index) == Some(x.value) then 1 else 0
  }

  /** One key more adds its reply, if it routes to the instance and has one. */
  lemma OneKeyMore<V>(routes: Routes, answers: map<string, seq<V>>, n: nat, to: string)
    requires n < |routes| && to in answers
    ensures Zip(Positions(routes, n + 1, to), answers[to])
         == if routes[n] == Ok(to) && Reply(routes, answers, n).Some?
            then Zip(Positions(routes, n, to), answers[to]) + [Tagged(n, Reply(routes, answers, n).value)]
            else Zip(Positions(routes, n, to), answers[to])
  {
    if routes[n] == Ok(to) {
      ZipOneMore(Positions(routes, n, to), n, answers[to]);
    }
  }

  lemma IsReplyStep<V>(routes: Routes, answers: map<string, seq<V>>, n: nat, to: string, x: Tagged<V>)
    requires n < |routes|
    ensures IsReply(routes, answers, n + 1, to, x) == IsReply(routes, answers, n, to, x)
      + if routes[n] == Ok(to) && Reply(routes, answers, n).Some? && x == Tagged(n, Reply(routes, answers, n).value) then 1 else 0
  {
  }

  /** What one instance contributes to the merge. */
  lemma {:induction false} ChunkCount<V>(routes: Routes, answers: map<string, seq<V>>, n: nat, to: string, x: Tagged<V>)
    requires n <= |routes| && to in answers
    ensures Count(Zip(Positions(routes, n, to), answers[to]), x) == IsReply(routes, answers, n, to, x)
  {
    if n > 0 {
      ChunkCount(routes, answers, n - 1, to, x);
      OneKeyMore(routes, answers, n - 1, to);
      IsReplyStep(routes, answers, n - 1, to, x);
      if routes[n - 1] == Ok(to) && Reply(routes, answers, n - 1).Some? {
        CountAppend(Zip(Positions(routes, n - 1, to), answers[to]), Tagged(n - 1, Reply(routes, answers, n - 1).value), x);
      }
    }
  }

  /** Whether a reply comes from one of these instances. */
  ghost function Came<V>(routes: Routes, answers: map<string, seq<V>>, from: set<string>, x: Tagged<V>): nat {
    if x.index < |routes| && routes[x.index].Ok? && routes[x.index].value in from
       && Reply(routes, answers, x.index) == Some(x.value) then 1 else 0
  }

  lemma OneChunkMore<V>(routes: Routes, answers: map<string, seq<V>>, from: set<string>, to: string,
                        pairs: seq<Tagged<V>>, x: Tagged<V>)
    requires to in answers && to !in from && Count(pairs, x) == Came(routes, answers, from, x)
    ensures Count(pairs + Zip(Positions(routes, |routes|, to), answers[to]), x) == Came(routes, answers, from + {to}, x)
  {
    CountConcat(pairs, Zip(Positions(routes, |routes|, to), answers[to]), x);
    ChunkCount(routes, answers, |routes|, to, x);
  }

  /** The zipped answers, flattened in any order of the instances. */
  method Flatten<K, V(!new)>(ghost keys: seq<K>, ghost routes: Routes, chunks: map<string, Chunk<K>>, answers: map<string, seq<V>>)
      returns (pairs: seq<Tagged<V>>)
    requires |routes| == |keys| && Split(keys, routes, |keys|, chunks) && answers.Keys == chunks.Keys
    ensures forall x :: Count(pairs, x) == Came(routes, answers, answers.Keys, x)
  {
    pairs := [];
    var todo := chunks.Keys;
    ghost var from: set<string> := {};
    while todo != {}
      invariant todo + from == chunks.Keys && todo !! from
      invariant forall x :: Count(pairs, x) == Came(routes, answers, from, x)
    {
      var to :| to in todo;
      assert HasChunk(keys, routes, |keys|, chunks, to);
      forall x ensures Count(pairs + Zip(chunks[to].indices, answers[to]), x) == Came(routes, answers, from + {to}, x) {
        OneChunkMore(routes, answers, from, to, pairs, x);
      }
      pairs := pairs + Zip(chunks[to].indices, answers[to]);
      todo, from := todo - {to}, from + {to};
    }
    assert from == answers.Keys;
  }

  /** Sorting by position gives the replies in the order of the keys. */
  method Merge<K, V(!new)>(ghost keys: seq<K>, ghost routes: Routes, chunks: map<string, Chunk<K>>, answers: map<string, seq<V>>)
      returns (values: seq<V>)
    requires |routes| == |keys| && Split(keys, routes, |keys|, chunks) && answers.Keys == chunks.Keys
    ensures values == Values(Replies(routes, answers, |keys|))
  {
    var pairs := Flatten(keys, routes, chunks, answers);
    SortIsReplies(routes, answers, pairs);
    values := Values(SortBy(pairs, Index()));
  }

  lemma SortIsReplies<V(!new)>(routes: Routes, answers: map<string, seq<V>>, pairs: seq<Tagged<V>>)
    requires forall x :: Count(pairs, x) == Came(routes, answers, answers.Keys, x)
    ensures SortBy(pairs, Index()) == Replies(routes, answers, |routes|)
  {
    SortAscends(pairs, Index());
    RepliesAscend(routes, answers, |routes|);
    forall x ensures Count(Replies(routes, answers, |routes|), x) == Count(SortBy(pairs, Index()), x) {
      SortCount(pairs, Index(), x);
      RepliesCount(routes, answers, |routes|, x);
    }
    Determined(Replies(routes, answers, |routes|), SortBy(pairs, Index()), Index());
  }

  // ---------------------------------------------------------------- the call

  type Server<!K, !V> = (string, seq<K>) -> Result<seq<V>, Status>

  /** What every instance answers to the keys that route to it. */
  ghost function AnswersOf<K, V>(chunks: map<string, Chunk<K>>, server: Server<K, V>): map<string, seq<V>> {
    map to | to in chunks && server(to, chunks[to].keys).Ok? :: server(to, chunks[to].keys).value
  }

  /**
    The whole request. It fails if a key cannot be routed, an instance has no client, or
    an instance fails; otherwise it returns the replies in the order of the keys.
  */
  method ChunkedUnaryUnary<K, V(!new)>(keys: seq<K>, routes: Routes, connect: string -> Result<(), Status>, server: Server<K, V>)
      returns (r: Result<seq<V>, Status>, ghost chunks: map<string, Chunk<K>>)
    requires |routes| == |keys|
    ensures (exists i :: 0 <= i < |routes| && routes[i].Err?) ==> r.Err? && r.error.Unavailable?
    ensures (forall i :: 0 <= i < |routes| ==> routes[i].Ok?) ==>
      && Split(keys, routes, |keys|, chunks)
      && (r.Ok? <==> forall to :: to in chunks ==> connect(to).Ok? && server(to, chunks[to].keys).Ok?)
      && (r.Err? ==> exists to :: to in chunks && FailsWith(to, chunks[to], connect, server, r.error))
      && (r.Ok? ==> r.value == Values(Replies(routes, AnswersOf(chunks, server), |keys|)))
  {
    chunks := map[];
    var split := SplitKeys(keys, routes);
    if split.Err? {
      return Err(Unavailable("failed to split keys")), chunks;
    }
    chunks := split.value;
    var answers, failed := Call(split.value, connect, server);
    if failed.Some? {
      return Err(failed.value), chunks;
    }
    assert answers == AnswersOf(chunks, server);
    var values := Merge(keys, routes, split.value, answers);
    r := Ok(values);
  }

  /** Why a chunk got no answer: its instance cannot be reached, or fails. */
  ghost predicate FailsWith<K, V>(to: string, chunk: Chunk<K>, connect: string -> Result<(), Status>, server: Server<K, V>, e: Status) {
    connect(to) == Err(e) || (connect(to).Ok? && server(to, chunk.keys) == Err(e))
  }

  /** Sends every chunk, in any order. */
  method Call<K, V>(chunks: map<string, Chunk<K>>, connect: string -> Result<(), Status>, server: Server<K, V>)
      returns (answers: map<string, seq<V>>, failed: Option<Status>)
    ensures failed.None? <==> forall to :: to in chunks ==> connect(to).Ok? && server(to, chunks[to].keys).Ok?
    ensures failed.Some? ==> exists to :: to in chunks && FailsWith(to, chunks[to], connect, server, failed.value)
    ensures failed.None? ==>
      && answers.Keys == chunks.Keys
      && forall to :: to in chunks ==> server(to, chunks[to].keys) == Ok(answers[to])
  {
    answers := map[];
    var todo := chunks.Keys;
    while todo != {}
      invariant todo <= chunks.Keys && answers.Keys == chunks.Keys - todo
      invariant forall to :: to in answers ==> connect(to).Ok? && server(to, chunks[to].keys) == Ok(answers[to])
    {
      var to :| to in todo;
      todo := todo - {to};
      if connect(to).Err? {
        assert FailsWith(to, chunks[to], connect, server, connect(to).error);
        return answers, Some(connect(to).error);
      }
      var answer := server(to, chunks[to].keys);
      if answer.Err? {
        assert FailsWith(to, chunks[to], connect, server, answer.error);
        return answers, Some(answer.error);
      }
      answers := answers[to := answer.value];
    }
    failed := None;
  }

  // ---------------------------------------------------------------- meaning

  function Pointwise<K, V>(keys: seq<K>, f: K -> V): seq<V> {
    seq(|keys|, i requires 0 <= i < |keys| => f(keys[i]))
  }

  /** With instances that answer key by key, a key's reply is its own answer. */
  lemma ReplyIsOwn<K, V>(keys: seq<K>, routes: Routes, chunks: map<string, Chunk<K>>, answers: map<string, seq<V>>,
                         f: K -> V, i: nat)
    requires |routes| == |keys| && Split(keys, routes, |keys|, chunks) && answers.Keys == chunks.Keys
    requires i < |keys| && routes[i].Ok?
    requires forall to :: to in chunks ==> answers[to] == Pointwise(chunks[to].keys, f)
    ensures Reply(routes, answers, i) == Some(f(keys[i]))
  {
    var to := routes[i].value;
    assert HasChunk(keys, routes, |keys|, chunks, to);
    PositionsGrow(routes, i + 1, |keys|, to);
    var p := |Positions(routes, i, to)|;
    assert Positions(routes, i + 1, to)[p] == i;
    assert Positions(routes, |keys|, to)[p] == i;
  }

  lemma {:induction false} AllReply<K, V>(keys: seq<K>, routes: Routes, answers: map<string, seq<V>>, f: K -> V, n: nat)
    requires n <= |keys| == |routes|
    requires forall i :: 0 <= i < n ==> Reply(routes, answers, i) == Some(f(keys[i]))
    ensures Values(Replies(routes, answers, n)) == Pointwise(keys[..n], f)
  {
    if n > 0 {
      AllReply(keys, routes, answers, f, n - 1);
      var before := Replies(routes, answers, n - 1);
      assert Values(before + [Tagged(n - 1, f(keys[n - 1]))]) == Values(before) + [f(keys[n - 1])];
      assert Pointwise(keys[..n], f) == Pointwise(keys[..n - 1], f) + [f(keys[n - 1])];
    }
  }

  /** Fan-out preserves meaning: the result is the pointwise answer, in the order of the keys. */
  lemma FanOutIsPointwise<K, V>(keys: seq<K>, routes: Routes, chunks: map<string, Chunk<K>>, server: Server<K, V>, f: K -> V)
    requires |routes| == |keys| && Split(keys, routes, |keys|, chunks)
    requires forall i :: 0 <= i < |routes| ==> routes[i].Ok?
    requires forall to :: to in chunks ==> server(to, chunks[to].keys) == Ok(Pointwise(chunks[to].keys, f))
    ensures Values(Replies(routes, AnswersOf(chunks, server), |keys|)) == Pointwise(keys, f)
  {
    var answers := AnswersOf(chunks, server);
    forall i | 0 <= i < |keys| ensures Reply(routes, answers, i) == Some(f(keys[i])) {
      ReplyIsOwn(keys, routes, chunks, answers, f, i);
    }
    AllReply(keys, routes, answers, f, |keys|);
    assert keys[..|keys|] == keys;
  }

  lemma {:induction false} NoReplyLost<V>(routes: Routes, answers: map<string, seq<V>>, n: nat)
    requires n <= |routes|
    ensures |Replies(routes, answers, n)| <= n
    ensures |Replies(routes, answers, n)| == n <==> forall i :: 0 <= i < n ==> Reply(routes, answers, i).Some?
  {
    if n > 0 {
      NoReplyLost(routes, answers, n - 1);
    }
  }

  lemma {:induction false} LastPosition(routes: Routes, n: nat, to: string) returns (i: nat)
    requires n <= |routes| && Positions(routes, n, to) != []
    ensures i < n && routes[i] == Ok(to) && |Positions(routes, i, to)| == |Positions(routes, n, to)| - 1
  {
    i := n - 1;
    if routes[n - 1] != Ok(to) {
      i := LastPosition(routes, n - 1, to);
    }
  }

  /** The merge drops replies, without an error, exactly when an instance answers for fewer keys than it was sent. */
  lemma CompleteIffAnswersAre<V>(routes: Routes, answers: map<string, seq<V>>)
    requires forall i :: 0 <= i < |routes| ==> routes[i].Ok? && routes[i].value in answers
    ensures |Replies(routes, answers, |routes|)| == |routes|
       <==> forall to :: to in answers ==> |Positions(routes, |routes|, to)| <= |answers[to]|
  {
    NoReplyLost(routes, answers, |routes|);
    if forall to :: to in answers ==> |Positions(routes, |routes|, to)| <= |answers[to]| {
      forall i | 0 <= i < |routes| ensures Reply(routes, answers, i).Some? {
        PositionsGrow(routes, i + 1, |routes|, routes[i].value);
      }
    }
    if forall i :: 0 <= i < |routes| ==> Reply(routes, answers, i).Some? {
      forall to | to in answers ensures |Positions(routes, |routes|, to)| <= |answers[to]| {
        if Positions(routes, |routes|, to) != [] {
          var i := LastPosition(routes, |routes|, to);
          assert Reply(routes, answers, i).Some?;
        }
      }
    }
  }
}
