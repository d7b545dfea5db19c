/**
  What the watchers see of etcd: the answers of its get and watch calls, and, as the
  reference they are measured against, the log of changes those answers come from.
*/
module EtcdModel {
  import opened Options
  import opened WatchEvents

  datatype Action = Get | Create | Set | Update | CompareAndSwap | Delete | Expire | CompareAndDelete

  /** The children of a node, which etcd leaves out when there are none. */
  datatype Children = NoNodes | Nodes(list: seq<Node>)

  datatype Node = Node(key: Option<string>, value: Option<string>, nodes: Children,
                       dir: Option<bool>, modifiedIndex: Option<nat>)

  datatype WatchResponse = WatchResponse(action: Action, node: Node)

  datatype GetResponse = GetResponse(node: Node, etcdIndex: Option<nat>)

  datatype EtcdError = KeyNotFound(index: nat) | Api(code: nat) | WatchTimeout | Other

  /** What etcd would answer to a watch and to a get; the loop makes one of the two calls. */
  datatype Answer = Answer(watch: Result<WatchResponse, EtcdError>, get: Result<GetResponse, EtcdError>)

  function OrEmpty(s: Option<string>): string {
    if s.Some? then s.value else ""
  }

  function OrZero(n: Option<nat>): nat {
    if n.Some? then n.value else 0
  }

  function OrFalse(b: Option<bool>): bool {
    b.Some? && b.value
  }

  predicate IsRemoval(a: Action) {
    a in {CompareAndDelete, Delete, Expire}
  }

  predicate IsWrite(a: Action) {
    a in {Create, Set, Update, CompareAndSwap}
  }

  // ---------------------------------------------------------------- node trees

  /** The key and value pairs at the leaves, in the order of the tree. */
  function Leaves(node: Node): seq<(string, string)> {
    match node.nodes
    case Nodes(children) => AllLeaves(children)
    case NoNodes => if node.key.Some? && node.value.Some? then [(node.key.value, node.value.value)] else []
  }

  function AllLeaves(nodes: seq<Node>): seq<(string, string)> {
    if nodes == [] then [] else AllLeaves(nodes[..|nodes| - 1]) + Leaves(nodes[|nodes| - 1])
  }

  /** The tree has a leaf with this key and this value. */
  ghost predicate Contains(node: Node, k: string, v: string) {
    match node.nodes
    case NoNodes => node.key == Some(k) && node.value == Some(v)
    case Nodes(children) => exists i :: 0 <= i < |children| && Contains(children[i], k, v)
  }

  lemma {:induction false} LeavesAre(node: Node, k: string, v: string)
    ensures (k, v) in Leaves(node) <==> Contains(node, k, v)
    decreases node, 1
  {
    if node.nodes.Nodes? {
      AllLeavesAre(node.nodes.list, k, v);
    }
  }

  lemma {:induction false} AllLeavesAre(nodes: seq<Node>, k: string, v: string)
    ensures (k, v) in AllLeaves(nodes) <==> exists i :: 0 <= i < |nodes| && Contains(nodes[i], k, v)
    decreases nodes, 0
  {
    if nodes != [] {
      var init, last := nodes[..|nodes| - 1], nodes[|nodes| - 1];
      AllLeavesAre(init, k, v);
      LeavesAre(last, k, v);
      if i :| 0 <= i < |init| && Contains(init[i], k, v) {
        assert Contains(nodes[i], k, v);
      }
      if i :| 0 <= i < |nodes| && Contains(nodes[i], k, v) {
        assert i < |init| ==> Contains(init[i], k, v);
      }
    }
  }

  /** Inserts pairs one after the other: for a repeated key the last one stays. */
  function PutAll(target: Items, pairs: seq<(string, string)>): Items {
    if pairs == [] then target
    else PutAll(target, pairs[..|pairs| - 1])[pairs[|pairs| - 1].0 := pairs[|pairs| - 1].1]
  }

  lemma {:induction false} PutAllConcat(target: Items, p: seq<(string, string)>, q: seq<(string, string)>)
    ensures PutAll(target, p + q) == PutAll(PutAll(target, p), q)
  {
    if q == [] {
      assert p + q == p;
    } else {
      assert (p + q)[..|p + q| - 1] == p + q[..|q| - 1];
      PutAllConcat(target, p, q[..|q| - 1]);
    }
  }

  ghost predicate DistinctKeys(pairs: seq<(string, string)>) {
    forall i, j :: 0 <= i < j < |pairs| ==> pairs[i].0 != pairs[j].0
  }

  /** With no key repeated, the map holds every pair and nothing else. */
  lemma {:induction false} PutAllExact(pairs: seq<(string, string)>)
    requires DistinctKeys(pairs)
    ensures |PutAll(map[], pairs)| == |pairs|
    ensures forall k, v :: (k in PutAll(map[], pairs) && PutAll(map[], pairs)[k] == v) <==> (k, v) in pairs
  {
    if pairs != [] {
      var init, last := pairs[..|pairs| - 1], pairs[|pairs| - 1];
      PutAllExact(init);
      assert pairs == init + [last];
      var m := PutAll(map[], init);
      assert forall k :: k in m ==> (k, m[k]) in init;
      assert last.0 !in m;
      assert PutAll(map[], pairs).Keys == m.Keys + {last.0};
    }
  }

  /** A node as etcd sends it: a file has a key and a value, a directory has neither a value nor hidden files. */
  ghost predicate WellFormed(node: Node) {
    if OrFalse(node.dir) then
      && node.value.None?
      && (node.nodes.Nodes? ==> forall i :: 0 <= i < |node.nodes.list| ==> WellFormed(node.nodes.list[i]))
    else node.nodes.NoNodes? && node.key.Some? && node.value.Some?
  }

  /** A node that lists exactly these items. */
  ghost predicate Lists(node: Node, items: Items) {
    && DistinctKeys(Leaves(node))
    && forall k, v :: (k in items && items[k] == v) <==> Contains(node, k, v)
  }

  // ---------------------------------------------------------------- the log

  datatype Entry =
    | Put(key: string, value: string)
    | Remove(key: string)
    | RemoveDir(key: string)
    | MakeDir(key: string)

  predicate Below(dir: string, key: string) {
    dir + "/" <= key
  }

  /** A key is below a directory if it continues the directory's name after a slash. */
  lemma BelowIs(dir: string, key: string)
    ensures Below(dir, key) <==> exists rest :: key == dir + "/" + rest
  {
    if Below(dir, key) {
      assert key == dir + "/" + key[|dir| + 1..];
    }
  }

  predicate InTree(root: string, key: string) {
    key == root || Below(root, key)
  }

  function Perform(e: Entry, v: Items): Items {
    match e
    case Put(k, x) => v[k := x]
    case Remove(k) => v - {k}
    case RemoveDir(d) => map k | k in v && !Below(d, k) :: v[k]
    case MakeDir(_) => v
  }

  function Replay(log: seq<Entry>): Items {
    if log == [] then map[] else Perform(log[|log| - 1], Replay(log[..|log| - 1]))
  }

  /** The part of a value that a recursive watch of `root` shows. */
  function Subtree(root: string, v: Items): Items {
    map k | k in v && InTree(root, k) :: v[k]
  }

  /** etcd keeps files and directories apart: a directory made or removed is not also a file. */
  ghost predicate Sound(log: seq<Entry>) {
    forall i :: 0 <= i < |log| && (log[i].RemoveDir? || log[i].MakeDir?) ==> log[i].key !in Replay(log[..i])
  }

  /** Entries that can change the subtree: those inside it, and the removal of a directory around it. */
  predicate Relevant(root: string, e: Entry) {
    InTree(root, e.key) || (e.RemoveDir? && Below(e.key, root))
  }

  /** What a watch may deliver: it need not be relevant, but a write always is. */
  predicate Deliverable(root: string, e: Entry) {
    e.Put? || e.MakeDir? ==> InTree(root, e.key)
  }

  ghost predicate Reports(r: WatchResponse, e: Entry, index: nat) {
    && r.node.key == Some(e.key)
    && r.node.modifiedIndex == Some(index)
    && match e
       case Put(_, x) => IsWrite(r.action) && r.node.value == Some(x)
       case Remove(_) => IsRemoval(r.action) && !OrFalse(r.node.dir) && r.node.value == None
       case RemoveDir(_) => IsRemoval(r.action) && r.node.dir == Some(true) && r.node.value == None
       case MakeDir(_) => IsWrite(r.action) && r.node.dir == Some(true) && r.node.value == None
  }

  /** No entry in this stretch of the log is relevant. */
  ghost predicate Quiet(root: string, log: seq<Entry>, lo: nat, hi: nat) {
    forall i :: lo <= i < hi && i < |log| ==> !Relevant(root, log[i])
  }

  // ---------------------------------------------------------------- subtrees along the log

  ghost function At(root: string, log: seq<Entry>, index: nat): Items
    requires index <= |log|
  {
    Subtree(root, Replay(log[..index]))
  }

  lemma IrrelevantKeeps(root: string, e: Entry, v: Items)
    requires !Relevant(root, e)
    ensures Subtree(root, Perform(e, v)) == Subtree(root, v)
  {
    if e.RemoveDir? {
      forall k | InTree(root, k) ensures !Below(e.key, k) {
        DirOutside(e.key, root, k);
      }
    }
  }

  /** Two directories above the same key are nested. */
  lemma DirOutside(d: string, root: string, k: string)
    requires InTree(root, k) && !InTree(root, d) && !Below(d, root)
    ensures !Below(d, k)
  {
    if |d| + 1 <= |root| {
      assert root <= k;
      assert (d + "/" <= root) == (d + "/" <= k);
    } else if |root| < |d| {
      assert InTree(root, k) && k != root ==> Below(root, k);
      assert |k| > |root| && d <= k ==> (root + "/" <= d) == (root + "/" <= k);
    } else {
      assert d <= k ==> d == root;
    }
  }

  lemma {:induction false} QuietKeeps(root: string, log: seq<Entry>, lo: nat, hi: nat)
    requires lo <= hi <= |log| && Quiet(root, log, lo, hi)
    ensures At(root, log, hi) == At(root, log, lo)
    decreases hi
  {
    if lo < hi {
      QuietKeeps(root, log, lo, hi - 1);
      assert log[..hi][..hi - 1] == log[..hi - 1];
      IrrelevantKeeps(root, log[hi - 1], Replay(log[..hi - 1]));
    }
  }
}
