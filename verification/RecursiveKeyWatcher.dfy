/** The recursive key watcher: reading a directory, diffing it, and following its log. */
module RecursiveKeyWatcher {
  import opened Options
  import opened WatchEvents
  import opened EtcdModel
  import opened WatchLoop

  // ---------------------------------------------------------------- reading a directory

  /** The capacity computed for the map: how many files the tree announces. */
  function CountChildren(total: nat, node: Node): nat
    decreases node, 1
  {
    (if OrFalse(node.dir) then
       match node.nodes
       case Nodes(children) => CountAll(0, children)
       case NoNodes => 0
     else 1) + total
  }

  function CountAll(total: nat, nodes: seq<Node>): nat
    decreases nodes, 0
  {
    if nodes == [] then total
    else CountChildren(CountAll(total, nodes[..|nodes| - 1]), nodes[|nodes| - 1])
  }

  method CollectChildren(target: Items, node: Node) returns (r: Items)
    ensures r == PutAll(target, Leaves(node))
    decreases node
  {
    r := target;
    match node.nodes {
      case Nodes(children) =>
        for i := 0 to |children|
          invariant r == PutAll(target, AllLeaves(children[..i]))
        {
          ghost var before := r;
          r := CollectChildren(r, children[i]);
          assert children[..i + 1][..i] == children[..i];
          PutAllConcat(target, AllLeaves(children[..i]), Leaves(children[i]));
        }
        assert children[..|children|] == children;
      case NoNodes =>
        if node.key.Some? && node.value.Some? {
          r := r[node.key.value := node.value.value];
          assert Leaves(node)[..0] == [];
        }
    }
  }

  method CollectNodeChildren(node: Node) returns (r: Items)
    ensures r == PutAll(map[], Leaves(node))
  {
    r := CollectChildren(map[], node);
  }

  lemma {:induction false} CountsLeaves(node: Node, total: nat)
    requires WellFormed(node)
    ensures CountChildren(total, node) == total + |Leaves(node)|
    decreases node, 1
  {
    if OrFalse(node.dir) && node.nodes.Nodes? {
      CountsAllLeaves(node.nodes.list, 0);
    }
  }

  lemma {:induction false} CountsAllLeaves(nodes: seq<Node>, total: nat)
    requires forall i :: 0 <= i < |nodes| ==> WellFormed(nodes[i])
    ensures CountAll(total, nodes) == total + |AllLeaves(nodes)|
    decreases nodes, 0
  {
    if nodes != [] {
      CountsAllLeaves(nodes[..|nodes| - 1], total);
      CountsLeaves(nodes[|nodes| - 1], CountAll(total, nodes[..|nodes| - 1]));
    }
  }

  /** The collected map is the listed directory, and the capacity was exact. */
  lemma CollectsDirectory(node: Node, items: Items)
    requires WellFormed(node) && Lists(node, items)
    ensures PutAll(map[], Leaves(node)) == items
    ensures CountChildren(0, node) == |items|
  {
    var m := PutAll(map[], Leaves(node));
    PutAllExact(Leaves(node));
    forall k, v ensures (k, v) in Leaves(node) <==> Contains(node, k, v) {
      LeavesAre(node, k, v);
    }
    assert m == items by {
      assert forall k :: k in m ==> (k, m[k]) in Leaves(node);
      assert forall k :: k in items ==> (k, items[k]) in Leaves(node);
    }
    CountsLeaves(node, 0);
  }

  // ---------------------------------------------------------------- diffs

  function SingleKeyDelete(key: string, v: Items): Items {
    v - {key}
  }

  /** The value after a directory went away: all of it for the root, else what is not below. */
  function DirDelete(root: string, key: string, v: Items): Items {
    if key == root then map[] else map k | k in v && !Below(key, k) :: v[k]
  }

  function ComputeSingleKeyDeleteEvents(key: string, v: Items): (r: (seq<Event>, Items))
    ensures r.1 == SingleKeyDelete(key, v) && Delta(r.0, v, r.1)
  {
    if key in v then
      SingleEvent(DeleteOne(key, v[key]), v);
      ([DeleteOne(key, v[key])], v - {key})
    else
      NoEvent(v);
      ([], v)
  }

  function ComputeKeyUpdateEvents(key: string, value: string, v: Items): (r: (seq<Event>, Items))
    ensures r.1 == v[key := value] && Delta(r.0, v, r.1)
  {
    if key in v && v[key] == value then
      NoEvent(v);
      ([], v)
    else
      SingleEvent(SyncOne(key, value), v);
      ([SyncOne(key, value)], v[key := value])
  }

  lemma NoEvent(v: Items)
    ensures KeyByKey([], v, v) && Delta([], v, v)
  {
    SameWhenNoDiff(v, v);
  }

  lemma SingleEvent(e: Event, v: Items)
    requires !e.FullSync? && Changes(e, v)
    ensures Delta([e], v, Apply(e, v))
  {
    NoEvent(v);
    ExtendKeyByKey([], v, v, e);
    assert [] + [e] == [e];
    KeyByKeyIsDelta([e], v, Apply(e, v));
  }

  lemma SyncsTo(v: Items, w: Items)
    requires v != w
    ensures Delta([FullSync(w)], v, w)
  {
    FoldAppend([], FullSync(w), v);
    assert [] + [FullSync(w)] == [FullSync(w)];
  }

  /** Clearing a value: one full sync, or nothing when it was already empty. */
  function Cleared(v: Items): (r: (seq<Event>, Items))
    ensures r.1 == map[] && Delta(r.0, v, r.1)
  {
    if v == map[] then
      NoEvent(v);
      ([], v)
    else
      SyncsTo(v, map[]);
      ([FullSync(map[])], map[])
  }

  method ComputeDirDeleteEvents(root: string, key: string, v: Items) returns (events: seq<Event>, r: Items)
    ensures r == DirDelete(root, key, v) && Delta(events, v, r)
  {
    if key == root {
      var c := Cleared(v);
      return c.0, c.1;
    }
    events, r := [], v;
    NoEvent(v);
    var todo := v.Keys;
    while todo != {}
      invariant todo <= v.Keys
      invariant forall k :: k in v && (k in todo || !Below(key, k)) ==> k in r && r[k] == v[k]
      invariant forall k :: k in r ==> k in v && (k in todo || !Below(key, k))
      invariant KeyByKey(events, v, r)
    {
      var k :| k in todo;
      todo := todo - {k};
      if Below(key, k) {
        DeleteStep(events, v, r, k);
        events := events + [DeleteOne(k, r[k])];
        r := r - {k};
      }
    }
    KeyByKeyIsDelta(events, v, r);
  }

  /** The first loop: keys that are new or have a new value, in any order of the map. */
  method SyncChanged(v: Items, next: Items) returns (events: seq<Event>, r: Items, unvisited: set<string>)
    ensures r == v + next && KeyByKey(events, v, r) && unvisited == v.Keys - next.Keys
  {
    events, r, unvisited := [], v, v.Keys;
    NoEvent(v);
    var todo := next.Keys;
    while todo != {}
      invariant todo <= next.Keys && unvisited == v.Keys - (next.Keys - todo)
      invariant r.Keys == v.Keys + (next.Keys - todo)
      invariant forall k :: k in r ==> if k in next && k !in todo then r[k] == next[k] else k in v && r[k] == v[k]
      invariant KeyByKey(events, v, r)
    {
      var k :| k in todo;
      todo := todo - {k};
      unvisited := unvisited - {k};
      if !(k in v && v[k] == next[k]) {
        SyncStep(events, v, r, k, next[k]);
        events := events + [SyncOne(k, next[k])];
        r := r[k := next[k]];
      }
    }
  }

  lemma SyncStep(events: seq<Event>, v: Items, r: Items, k: string, x: string)
    requires KeyByKey(events, v, r) && !Differ(v, r, k) && !(k in v && v[k] == x)
    ensures KeyByKey(events + [SyncOne(k, x)], v, r[k := x])
  {
    assert k in r[k := x] && r[k := x][k] == x;
    ExtendKeyByKey(events, v, r, SyncOne(k, x));
  }

  lemma DeleteStep(events: seq<Event>, v: Items, r: Items, k: string)
    requires KeyByKey(events, v, r) && !Differ(v, r, k) && k in r
    ensures KeyByKey(events + [DeleteOne(k, r[k])], v, r - {k})
  {
    ExtendKeyByKey(events, v, r, DeleteOne(k, r[k]));
  }

  lemma RemoveOneMore(m: Items, gone: set<string>, k: string)
    ensures (m - gone) - {k} == m - (gone + {k})
  {
  }

  /** The second loop: keys that are gone. */
  method DeleteUnvisited(v: Items, merged: Items, start: seq<Event>, unvisited: set<string>)
      returns (events: seq<Event>, r: Items)
    requires KeyByKey(start, v, merged)
    requires forall k :: k in unvisited ==> k in merged && !Differ(v, merged, k)
    ensures r == merged - unvisited && KeyByKey(events, v, r)
  {
    events, r := start, merged;
    var todo := unvisited;
    while todo != {}
      invariant todo <= unvisited && r == merged - (unvisited - todo)
      invariant KeyByKey(events, v, r)
    {
      var k :| k in todo;
      DeleteStep(events, v, r, k);
      events := events + [DeleteOne(k, r[k])];
      RemoveOneMore(merged, unvisited - todo, k);
      assert unvisited - (todo - {k}) == unvisited - todo + {k};
      r, todo := r - {k}, todo - {k};
    }
    assert unvisited - todo == unvisited;
  }

  method ComputeResetEvents(v: Items, next: Items) returns (events: seq<Event>, r: Items)
    ensures r == next && KeyByKey(events, v, r) && Delta(events, v, r)
  {
    var changed, merged, unvisited := SyncChanged(v, next);
    events, r := DeleteUnvisited(v, merged, changed, unvisited);
    KeyByKeyIsDelta(events, v, r);
  }

  // ---------------------------------------------------------------- calls

  /** What a get says about the directory. */
  function Begun(get: Result<GetResponse, EtcdError>): Result<WatchState<Items>, EtcdError> {
    match get
    case Err(KeyNotFound(index)) => Ok(WatchState(map[], index))
    case Err(e) => Err(e)
    case Ok(r) => Ok(WatchState(PutAll(map[], Leaves(r.node)), OrZero(r.etcdIndex)))
  }

  method BeginWatching(get: Result<GetResponse, EtcdError>) returns (r: Result<WatchState<Items>, EtcdError>)
    ensures r == Begun(get)
  {
    match get {
      case Err(KeyNotFound(index)) => r := Ok(WatchState(map[], index));
      case Err(e) => r := Err(e);
      case Ok(response) =>
        var items := CollectNodeChildren(response.node);
        r := Ok(WatchState(items, OrZero(response.etcdIndex)));
    }
  }

  method CallReset(v: Items, get: Result<GetResponse, EtcdError>)
      returns (r: Result<WatchResult<Items, Event>, EtcdError>)
    ensures Begun(get).Err? ==> r == Err(Begun(get).error)
    ensures Begun(get).Ok? ==>
      r.Ok? && r.value.Success? && r.value.state == Begun(get).value && Delta(r.value.events, v, r.value.state.currentValue)
  {
    var begun := BeginWatching(get);
    if begun.Err? {
      return Err(begun.error);
    }
    var state := begun.value;
    if state.currentValue == map[] {
      var c := Cleared(v);
      return Ok(Success(c.0, WatchState(c.1, state.waitIndex)));
    }
    var events, next := ComputeResetEvents(v, state.currentValue);
    r := Ok(Success(events, WatchState(next, state.waitIndex)));
  }

  /** The value after a watch response that is not a plain read. */
  function Changed(root: string, v: Items, r: WatchResponse): Items {
    var key := OrEmpty(r.node.key);
    if IsRemoval(r.action) then
      if OrFalse(r.node.dir) then DirDelete(root, key, v) else SingleKeyDelete(key, v)
    else v[key := OrEmpty(r.node.value)]
  }

  method CallWatch(root: string, s: WatchState<Items>, watch: Result<WatchResponse, EtcdError>)
      returns (r: Result<WatchResult<Items, Event>, EtcdError>)
    ensures match watch
      case Err(e) =>
        r == if ErrShouldResetWatcher(e) then Ok(Reset) else if ErrIsWatchTimeout(e) then Ok(Timeout) else Err(e)
      case Ok(w) =>
        if w.action.Get? then r == Ok(Reset)
        else
          && r.Ok? && r.value.Success?
          && r.value.state == WatchState(Changed(root, s.currentValue, w), OrZero(w.node.modifiedIndex))
          && Delta(r.value.events, s.currentValue, r.value.state.currentValue)
  {
    match watch {
      case Err(e) =>
        r := if ErrShouldResetWatcher(e) then Ok(Reset) else if ErrIsWatchTimeout(e) then Ok(Timeout) else Err(e);
      case Ok(w) =>
        var key := OrEmpty(w.node.key);
        var events, next := [], s.currentValue;
        if w.action.Get? {
          return Ok(Reset);
        } else if IsRemoval(w.action) {
          if OrFalse(w.node.dir) {
            events, next := ComputeDirDeleteEvents(root, key, s.currentValue);
          } else {
            var c := ComputeSingleKeyDeleteEvents(key, s.currentValue);
            events, next := c.0, c.1;
          }
        } else {
          var c := ComputeKeyUpdateEvents(key, OrEmpty(w.node.value), s.currentValue);
          events, next := c.0, c.1;
        }
        r := Ok(Success(events, WatchState(next, OrZero(w.node.modifiedIndex))));
    }
  }

  /** The next state of the loop; the order in which maps are walked does not show in it. */
  function Next(root: string, s: WatchLoopState<Items>, a: Answer): WatchLoopState<Items> {
    match s
    case ContinueWatching(w) =>
      (match a.watch
       case Err(e) => if ErrShouldResetWatcher(e) then ResetWatcher(w) else s
       case Ok(r) =>
         if r.action.Get? then ResetWatcher(w)
         else ContinueWatching(WatchState(Changed(root, w.currentValue, r), OrZero(r.node.modifiedIndex))))
    case ResetWatcher(w) =>
      (match Begun(a.get)
       case Err(_) => s
       case Ok(begun) => ContinueWatching(begun))
  }

  method RunLoopOnce(root: string, s: WatchLoopState<Items>, a: Answer)
      returns (s': WatchLoopState<Items>, events: seq<Event>)
    ensures s' == Next(root, s, a)
    ensures Delta(events, s.state.currentValue, s'.state.currentValue)
  {
    var result;
    match s {
      case ContinueWatching(w) => result := CallWatch(root, w, a.watch);
      case ResetWatcher(w) => result := CallReset(w.currentValue, a.get);
    }
    NoEvent(s.state.currentValue);
    var next := AfterCall(s, result);
    s', events := next.0, next.1;
  }

  // ---------------------------------------------------------------- following the log

  /** The loop's value is the watched subtree of the log replayed up to its index. */
  ghost predicate Follows(root: string, log: seq<Entry>, s: WatchState<Items>) {
    s.waitIndex <= |log| && s.currentValue == At(root, log, s.waitIndex)
  }

  /** A watch answers with the first relevant entry after the index, or something harmless before it. */
  ghost predicate HonestWatch(root: string, log: seq<Entry>, s: WatchState<Items>, r: WatchResponse) {
    r.action.Get? || exists i :: Watched(root, log, s, r, i)
  }

  ghost predicate Watched(root: string, log: seq<Entry>, s: WatchState<Items>, r: WatchResponse, i: nat) {
    && s.waitIndex <= i < |log|
    && Quiet(root, log, s.waitIndex, i)
    && Deliverable(root, log[i])
    && Reports(r, log[i], i + 1)
  }

  /** A get answers with the subtree at etcd's current index, which never runs backwards. */
  ghost predicate HonestGet(root: string, log: seq<Entry>, s: WatchState<Items>, get: Result<GetResponse, EtcdError>) {
    match get
    case Err(KeyNotFound(index)) => s.waitIndex <= index <= |log| && At(root, log, index) == map[]
    case Err(_) => true
    case Ok(r) =>
      && r.etcdIndex.Some? && s.waitIndex <= r.etcdIndex.value <= |log|
      && WellFormed(r.node) && Lists(r.node, At(root, log, r.etcdIndex.value))
  }

  ghost predicate Honest(root: string, log: seq<Entry>, s: WatchState<Items>, a: Answer) {
    && (a.watch.Ok? ==> HonestWatch(root, log, s, a.watch.value))
    && HonestGet(root, log, s, a.get)
  }

  // ---------------------------------------------------------------- directories taken for keys

  /**
    The loop reads the creation of a directory here. It takes the directory for a key with
    an empty value, which the log does not have: call it a phantom.
  */
  predicate ReadsDirectory(s: WatchLoopState<Items>, a: Answer) {
    s.ContinueWatching? && a.watch.Ok? && IsWrite(a.watch.value.action) && a.watch.value.node.value.None?
  }

  function Blank(keys: set<string>): Items {
    map k | k in keys :: ""
  }

  /** What becomes of the phantoms with a response: a later write or removal of the key clears it. */
  function PhantomsAfter(root: string, phantoms: set<string>, r: WatchResponse): set<string> {
    var key := OrEmpty(r.node.key);
    if IsRemoval(r.action) then
      if OrFalse(r.node.dir) then
        if key == root then {} else set k | k in phantoms && !Below(key, k)
      else phantoms - {key}
    else if r.node.value.None? then phantoms + {key}
    else phantoms - {key}
  }

  /** The phantoms after an iteration; a successful reset clears them all. */
  function PhantomsNext(root: string, s: WatchLoopState<Items>, phantoms: set<string>, a: Answer): set<string> {
    match s
    case ContinueWatching(_) =>
      if a.watch.Ok? && !a.watch.value.action.Get? then PhantomsAfter(root, phantoms, a.watch.value) else phantoms
    case ResetWatcher(_) =>
      if Begun(a.get).Ok? then {} else phantoms
  }

  /** The value is the watched subtree of the log plus exactly these phantoms. */
  ghost predicate OffBy(root: string, log: seq<Entry>, s: WatchState<Items>, phantoms: set<string>) {
    && s.waitIndex <= |log|
    && phantoms !! At(root, log, s.waitIndex).Keys
    && s.currentValue == At(root, log, s.waitIndex) + Blank(phantoms)
  }

  lemma FollowsIffNoPhantom(root: string, log: seq<Entry>, s: WatchState<Items>, phantoms: set<string>)
    requires OffBy(root, log, s, phantoms)
    ensures Follows(root, log, s) <==> phantoms == {}
  {
    var at := At(root, log, s.waitIndex);
    if phantoms == {} {
      assert at + Blank({}) == at;
    } else {
      var k :| k in phantoms;
      assert k in s.currentValue && k !in at;
    }
  }

  lemma FollowsIsOffByNone(root: string, log: seq<Entry>, s: WatchState<Items>)
    requires Follows(root, log, s)
    ensures OffBy(root, log, s, {})
  {
    var at := At(root, log, s.waitIndex);
    assert at + Blank({}) == at;
  }

  lemma PutHandled(root: string, k: string, x: string, v: Items, phantoms: set<string>)
    requires InTree(root, k)
    ensures (Subtree(root, v) + Blank(phantoms))[k := x] == Subtree(root, v[k := x]) + Blank(phantoms - {k})
  {
  }

  lemma RemoveHandled(root: string, k: string, v: Items, phantoms: set<string>)
    ensures (Subtree(root, v) + Blank(phantoms)) - {k} == Subtree(root, v - {k}) + Blank(phantoms - {k})
  {
  }

  lemma RemoveDirHandled(root: string, d: string, v: Items, phantoms: set<string>)
    requires d !in v
    ensures DirDelete(root, d, Subtree(root, v) + Blank(phantoms))
         == Subtree(root, Perform(RemoveDir(d), v))
            + Blank(if d == root then {} else set k | k in phantoms && !Below(d, k))
  {
  }

  /** Handling a response is performing its entry on the subtree, phantoms aside. */
  lemma EntryHandled(root: string, e: Entry, v: Items, phantoms: set<string>, r: WatchResponse, index: nat)
    requires Reports(r, e, index) && Deliverable(root, e) && phantoms !! Subtree(root, v).Keys
    requires e.RemoveDir? || e.MakeDir? ==> e.key !in v
    ensures PhantomsAfter(root, phantoms, r) !! Subtree(root, Perform(e, v)).Keys
    ensures Changed(root, Subtree(root, v) + Blank(phantoms), r)
         == Subtree(root, Perform(e, v)) + Blank(PhantomsAfter(root, phantoms, r))
  {
    match e {
      case Put(k, x) => PutHandled(root, k, x, v, phantoms);
      case Remove(k) => RemoveHandled(root, k, v, phantoms);
      case RemoveDir(d) => RemoveDirHandled(root, d, v, phantoms);
      case MakeDir(d) =>
        assert (Subtree(root, v) + Blank(phantoms))[d := ""] == Subtree(root, v) + Blank(phantoms + {d});
    }
  }

  lemma WatchMoves(root: string, log: seq<Entry>, s: WatchState<Items>, phantoms: set<string>, r: WatchResponse, i: nat)
    requires Sound(log) && OffBy(root, log, s, phantoms) && Watched(root, log, s, r, i)
    ensures OffBy(root, log, WatchState(Changed(root, s.currentValue, r), i + 1), PhantomsAfter(root, phantoms, r))
  {
    QuietKeeps(root, log, s.waitIndex, i);
    assert log[..i + 1][..i] == log[..i];
    EntryHandled(root, log[i], Replay(log[..i]), phantoms, r, i + 1);
  }

  /** A watch response keeps the value on the log if and only if it does not report the creation of a directory. */
  lemma WatchFollows(root: string, log: seq<Entry>, s: WatchState<Items>, r: WatchResponse, i: nat)
    requires Sound(log) && Follows(root, log, s) && Watched(root, log, s, r, i)
    ensures Follows(root, log, WatchState(Changed(root, s.currentValue, r), i + 1)) <==> !log[i].MakeDir?
  {
    FollowsIsOffByNone(root, log, s);
    WatchMoves(root, log, s, {}, r, i);
    FollowsIffNoPhantom(root, log, WatchState(Changed(root, s.currentValue, r), i + 1), PhantomsAfter(root, {}, r));
  }

  /** Otherwise the value is off by exactly that key, with an empty value. */
  lemma DirectoryMadeShowsAsKey(root: string, log: seq<Entry>, s: WatchState<Items>, r: WatchResponse, i: nat)
    requires Sound(log) && Follows(root, log, s) && Watched(root, log, s, r, i) && log[i].MakeDir?
    ensures Changed(root, s.currentValue, r) == At(root, log, i + 1)[log[i].key := ""]
    ensures log[i].key !in At(root, log, i + 1)
  {
    FollowsIsOffByNone(root, log, s);
    WatchMoves(root, log, s, {}, r, i);
    assert At(root, log, i + 1) + Blank({log[i].key}) == At(root, log, i + 1)[log[i].key := ""];
  }

  /** A reset that succeeds agrees with the log whatever the value was before. */
  lemma ResetFollows(root: string, log: seq<Entry>, s: WatchLoopState<Items>, a: Answer)
    requires s.ResetWatcher? && Begun(a.get).Ok? && HonestGet(root, log, s.state, a.get)
    ensures Follows(root, log, Next(root, s, a).state)
    ensures s.state.waitIndex <= Next(root, s, a).state.waitIndex
  {
    if a.get.Ok? {
      CollectsDirectory(a.get.value.node, At(root, log, a.get.value.etcdIndex.value));
    }
  }

  /**
    The loop gives up its index exactly when etcd has cleared it or answers with a plain
    read, and takes up watching again exactly when a get tells it the directory. Any other
    failure leaves it as it was.
  */
  lemma ResetsExactlyWhen(root: string, w: WatchState<Items>, a: Answer)
    ensures var s := Next(root, ContinueWatching(w), a);
      && (s.ResetWatcher? <==> a.watch == Err(Api(401)) || (a.watch.Ok? && a.watch.value.action == Get))
      && (a.watch.Err? || a.watch.value.action == Get ==> s.state == w)
    ensures var s := Next(root, ResetWatcher(w), a);
      && (s.ContinueWatching? <==> a.get.Ok? || a.get.error.KeyNotFound?)
      && (s.ResetWatcher? ==> s.state == w)
  {
  }

  predicate GetFails(a: Answer) {
    a.get.Err? && !a.get.error.KeyNotFound?
  }

  lemma {:induction false} FailuresChangeNothing(root: string, w: WatchState<Items>, failures: seq<Answer>)
    requires forall i :: 0 <= i < |failures| ==> GetFails(failures[i])
    ensures Run(root, ResetWatcher(w), failures) == ResetWatcher(w)
  {
    if failures != [] {
      FailuresChangeNothing(root, w, failures[..|failures| - 1]);
    }
  }

  /**
    Whatever the value and the index were, once etcd has cleared the index and however
    many gets fail after that, the first one that succeeds puts the loop back on the log,
    at the index of that get.
  */
  lemma ResetHeals(root: string, log: seq<Entry>, w: WatchState<Items>, a: Answer, failures: seq<Answer>, b: Answer)
    requires a.watch == Err(Api(401)) || (a.watch.Ok? && a.watch.value.action == Get)
    requires forall i :: 0 <= i < |failures| ==> GetFails(failures[i])
    requires !GetFails(b) && HonestGet(root, log, w, b.get)
    ensures var s := Next(root, Run(root, Next(root, ContinueWatching(w), a), failures), b);
      && s.ContinueWatching? && Follows(root, log, s.state)
      && s.state.waitIndex == if b.get.Ok? then b.get.value.etcdIndex.value else b.get.error.index
  {
    ResetsExactlyWhen(root, w, a);
    FailuresChangeNothing(root, w, failures);
    ResetFollows(root, log, ResetWatcher(w), b);
  }

  /** One iteration, from any state: the value stays the subtree of the log plus its phantoms. */
  lemma NextMoves(root: string, log: seq<Entry>, s: WatchLoopState<Items>, phantoms: set<string>, a: Answer)
    requires Sound(log) && OffBy(root, log, s.state, phantoms) && Honest(root, log, s.state, a)
    ensures OffBy(root, log, Next(root, s, a).state, PhantomsNext(root, s, phantoms, a))
    ensures s.state.waitIndex <= Next(root, s, a).state.waitIndex
  {
    match s {
      case ContinueWatching(w) =>
        if a.watch.Ok? && !a.watch.value.action.Get? {
          var i :| Watched(root, log, w, a.watch.value, i);
          WatchMoves(root, log, w, phantoms, a.watch.value, i);
        }
      case ResetWatcher(w) =>
        if Begun(a.get).Ok? {
          ResetFollows(root, log, s, a);
          FollowsIsOffByNone(root, log, Next(root, s, a).state);
        }
    }
  }

  /** An iteration keeps the value on the log if and only if it does not read the creation of a directory. */
  lemma NextFollows(root: string, log: seq<Entry>, s: WatchLoopState<Items>, a: Answer)
    requires Sound(log) && Follows(root, log, s.state) && Honest(root, log, s.state, a)
    ensures Follows(root, log, Next(root, s, a).state) <==> !ReadsDirectory(s, a)
    ensures s.state.waitIndex <= Next(root, s, a).state.waitIndex
  {
    FollowsIsOffByNone(root, log, s.state);
    NextMoves(root, log, s, {}, a);
    FollowsIffNoPhantom(root, log, Next(root, s, a).state, PhantomsNext(root, s, {}, a));
  }

  // ---------------------------------------------------------------- whole runs

  function Run(root: string, s: WatchLoopState<Items>, answers: seq<Answer>): WatchLoopState<Items> {
    if answers == [] then s
    else Next(root, Run(root, s, answers[..|answers| - 1]), answers[|answers| - 1])
  }

  /** Every answer of the run is honest in the state in which it is given. */
  ghost predicate HonestRun(root: string, log: seq<Entry>, s: WatchLoopState<Items>, answers: seq<Answer>) {
    answers == [] ||
    (&& HonestRun(root, log, s, answers[..|answers| - 1])
     && Honest(root, log, Run(root, s, answers[..|answers| - 1]).state, answers[|answers| - 1]))
  }

  /** The phantoms left after a run. */
  function PhantomsOf(root: string, s: WatchLoopState<Items>, answers: seq<Answer>): set<string> {
    if answers == [] then {}
    else
      var init := answers[..|answers| - 1];
      PhantomsNext(root, Run(root, s, init), PhantomsOf(root, s, init), answers[|answers| - 1])
  }

  /**
    Log refinement: in every reachable state of the loop, through changes, timeouts,
    errors and resets, the value is the watched subtree of the log at the wait index plus
    the phantoms left; so it is the subtree if and only if no phantom is left.
  */
  lemma {:induction false} RunFollows(root: string, log: seq<Entry>, s: WatchLoopState<Items>, answers: seq<Answer>)
    requires Sound(log) && Follows(root, log, s.state) && HonestRun(root, log, s, answers)
    ensures OffBy(root, log, Run(root, s, answers).state, PhantomsOf(root, s, answers))
    ensures Follows(root, log, Run(root, s, answers).state) <==> PhantomsOf(root, s, answers) == {}
    ensures s.state.waitIndex <= Run(root, s, answers).state.waitIndex
  {
    if answers == [] {
      FollowsIsOffByNone(root, log, s.state);
    } else {
      var init := answers[..|answers| - 1];
      RunFollows(root, log, s, init);
      NextMoves(root, log, Run(root, s, init), PhantomsOf(root, s, init), answers[|answers| - 1]);
      FollowsIffNoPhantom(root, log, Run(root, s, answers).state, PhantomsOf(root, s, answers));
    }
  }

  /** Some iteration of the run reads the creation of a directory. */
  predicate RunReadsDirectory(root: string, s: WatchLoopState<Items>, answers: seq<Answer>) {
    answers != [] &&
    (|| RunReadsDirectory(root, s, answers[..|answers| - 1])
     || ReadsDirectory(Run(root, s, answers[..|answers| - 1]), answers[|answers| - 1]))
  }

  /** The value is on the log at the start and after every iteration of the run. */
  ghost predicate AlwaysFollows(root: string, log: seq<Entry>, s: WatchLoopState<Items>, answers: seq<Answer>) {
    && Follows(root, log, Run(root, s, answers).state)
    && (answers == [] || AlwaysFollows(root, log, s, answers[..|answers| - 1]))
  }

  /** The whole run stays on the log if and only if none of its iterations reads the creation of a directory. */
  lemma {:induction false} AlwaysFollowsIff(root: string, log: seq<Entry>, s: WatchLoopState<Items>, answers: seq<Answer>)
    requires Sound(log) && Follows(root, log, s.state) && HonestRun(root, log, s, answers)
    ensures AlwaysFollows(root, log, s, answers) <==> !RunReadsDirectory(root, s, answers)
  {
    if answers != [] {
      var init := answers[..|answers| - 1];
      AlwaysFollowsIff(root, log, s, init);
      if AlwaysFollows(root, log, s, init) {
        NextFollows(root, log, Run(root, s, init), answers[|answers| - 1]);
      }
    }
  }

  /** No directory is created inside the watched tree. */
  ghost predicate NoDirectoryMade(root: string, log: seq<Entry>) {
    forall i :: 0 <= i < |log| && log[i].MakeDir? ==> !InTree(root, log[i].key)
  }

  /** On a log that makes no directory inside the tree every run stays on the log. */
  lemma {:induction false} NoDirectoryNoPhantom(root: string, log: seq<Entry>, s: WatchLoopState<Items>, answers: seq<Answer>)
    requires NoDirectoryMade(root, log) && HonestRun(root, log, s, answers)
    ensures !RunReadsDirectory(root, s, answers)
  {
    if answers != [] {
      var init, a := answers[..|answers| - 1], answers[|answers| - 1];
      NoDirectoryNoPhantom(root, log, s, init);
      var w := Run(root, s, init).state;
      if a.watch.Ok? && !a.watch.value.action.Get? {
        var i: nat :| Watched(root, log, w, a.watch.value, i);
        assert !log[i].MakeDir?;
      }
    }
  }

  /** The first read of the directory starts the loop on the log. */
  lemma StartFollows(root: string, log: seq<Entry>, get: Result<GetResponse, EtcdError>)
    requires HonestGet(root, log, WatchState(map[], 0), get) && Begun(get).Ok?
    ensures Follows(root, log, Begun(get).value)
  {
    ResetFollows(root, log, ResetWatcher(WatchState(map[], 0)), Answer(Err(Other), get));
  }

  /**
    An input on which the loop leaves the log: a directory made in an empty watched tree
    becomes a key with an empty value.
  */
  lemma PhantomAtAnInput()
    ensures var log := [MakeDir("/r/d")];
      var r := WatchResponse(Set, Node(Some("/r/d"), None, NoNodes, Some(true), Some(1)));
      var s, a := ContinueWatching(WatchState(map[], 0)), Answer(Ok(r), Err(Other));
      && Sound(log) && Follows("/r", log, s.state) && Honest("/r", log, s.state, a)
      && Next("/r", s, a).state.currentValue == map["/r/d" := ""]
      && At("/r", log, 1) == map[]
      && !Follows("/r", log, Next("/r", s, a).state)
  {
    var log := [MakeDir("/r/d")];
    var r := WatchResponse(Set, Node(Some("/r/d"), None, NoNodes, Some(true), Some(1)));
    var s := WatchState(map[], 0);
    assert log[..0] == [] && log[..1] == log;
    assert "/r" + "/" <= "/r/d";
    assert Watched("/r", log, s, r, 0);
  }
}
