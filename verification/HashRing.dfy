/** The consistent hash ring, and what its lookups promise when membership changes. */
module HashRing {
  import opened Options
  import opened Counting
  import opened RingWalk
  import opened RingItems
  import opened Sorting

  datatype NodeAlreadyExists = NodeAlreadyExists
  datatype NodeDoesNotExist = NodeDoesNotExist

  function Min(a: nat, b: nat): nat {
    if a < b then a else b
  }

  /** The nodes that have an item on the ring. */
  ghost function Owners(items: seq<Item>): set<string> {
    Elements(Names(items))
  }

  /** The nodes with a replica. */
  function Replicating(nodes: map<string, Node>): set<string> {
    set k | k in nodes && nodes[k].numReplicas > 0
  }

  /** That many nodes have a replica, or none has and the ring is empty. */
  predicate CanFind(nodes: map<string, Node>, num: nat) {
    Replicating(nodes) == {} || Min(|nodes|, num) <= |Replicating(nodes)|
  }

  /** No two items sit on the hash of this key. */
  ghost predicate NoTie(items: seq<Item>, key: nat) {
    |Filter(items, Exactly(key))| <= 1
  }

  /** The reference for a lookup of several nodes: the first different owners clockwise. */
  function FirstOwners(items: seq<Item>, key: nat, wanted: nat): seq<string> {
    Cut(Dedup(Clockwise(items, key)), wanted)
  }

  function Cut(owners: seq<string>, wanted: nat): seq<string> {
    owners[..Min(wanted, |owners|)]
  }

  function Collected(list: seq<Node>): map<string, Node> {
    if list == [] then map[] else Collected(list[..|list| - 1])[list[|list| - 1].name := list[|list| - 1]]
  }

  // ---------------------------------------------------------------- the walk of find_n

  function Turned(items: seq<Item>, start: nat): seq<string>
    requires start <= |items|
  {
    Names(items[start..] + items[..start])
  }

  lemma TurnedIsClockwise(items: seq<Item>, key: nat)
    requires Sorted(items)
    ensures StartOf(items, key) <= |items|
    ensures Turned(items, StartOf(items, key)) == Clockwise(items, key)
  {
    Halves(items, key);
    var u := |Filter(items, UpTo(key))|;
    if u >= |items| {
      assert items[0..] + items[..0] == items[u..] + items[..u];
    }
  }

  lemma TurnedAt(items: seq<Item>, start: nat, t: nat)
    requires start < |items| && t < |items|
    ensures |Turned(items, start)| == |items|
    ensures Turned(items, start)[t] == items[if start + t < |items| then start + t else start + t - |items|].nodeName
  {
    NamesAt(items[start..] + items[..start]);
  }

  lemma TurnedMembers(items: seq<Item>, start: nat)
    requires start <= |items|
    ensures Elements(Turned(items, start)) == Owners(items)
  {
    NamesConcat(items[start..], items[..start]);
    NamesConcat(items[..start], items[start..]);
    assert items[..start] + items[start..] == items;
  }

  lemma TurnedOwners(items: seq<Item>, start: nat)
    requires start <= |items|
    ensures |Dedup(Turned(items, start))| == |Owners(items)|
  {
    DedupCard(Turned(items, start));
    TurnedMembers(items, start);
  }

  /** A turn that is not complete, or has not met enough owners, has further to go. */
  lemma MoreToSee(items: seq<Item>, start: nat, t: nat, wanted: nat)
    requires start < |items| && t <= |items| && wanted <= |Owners(items)|
    requires |Turned(items, start)| == |items| && |Dedup(Turned(items, start)[..t])| < wanted
    ensures t < |items|
  {
    TurnedOwners(items, start);
    assert Turned(items, start)[..|items|] == Turned(items, start);
  }

  lemma SeenIsPrefix(items: seq<Item>, start: nat, t: nat)
    requires start < |items| && t <= |items| == |Turned(items, start)|
    ensures Dedup(Turned(items, start)[..t]) <= Dedup(Turned(items, start))
  {
    DedupPrefix(Turned(items, start)[..t], Turned(items, start)[t..]);
    assert Turned(items, start)[..t] + Turned(items, start)[t..] == Turned(items, start);
  }

  lemma EmptyRing(hash: Hash)
    ensures IsRing(hash, map[], [])
  {
    var none: map<string, Node> := map[];
    assert NameOrder([], none.Keys);
    assert SortBy(AllReplicas(hash, none, []), RingIndex()) == [];
  }

  class HashRing {
    const hash: Hash
    const search: Search
    var nodes: map<string, Node>
    var items: seq<Item>

    ghost predicate Valid()
      reads this
    {
      Searches(search) && Named(nodes) && IsRing(hash, nodes, items)
    }

    constructor (hash: Hash, search: Search)
      requires Searches(search)
      ensures Valid() && this.hash == hash && this.search == search && nodes == map[] && items == []
    {
      this.hash, this.search, nodes, items := hash, search, map[], [];
      EmptyRing(hash);
    }

    constructor WithNodes(hash: Hash, search: Search, list: seq<Node>)
      requires Searches(search)
      ensures Valid() && this.hash == hash && this.search == search && nodes == Collected(list)
    {
      this.hash, this.search, nodes, items := hash, search, map[], [];
      new;
      SetNodes(list);
    }

    method SetNodes(list: seq<Node>)
      requires Searches(search)
      modifies this`nodes, this`items
      ensures Valid() && nodes == Collected(list)
    {
      nodes := map[];
      for i := 0 to |list|
        invariant nodes == Collected(list[..i]) && Named(nodes)
      {
        assert list[..i + 1][..i] == list[..i];
        nodes := nodes[list[i].name := list[i]];
      }
      assert list[..|list|] == list;
      items := BuildRingItems(hash, nodes);
    }

    method Add(node: Node) returns (r: Result<(), NodeAlreadyExists>)
      requires Valid()
      modifies this`nodes, this`items
      ensures Valid() && (r.Err? <==> node.name in old(nodes))
      ensures r.Err? ==> nodes == old(nodes) && items == old(items)
      ensures r.Ok? ==> nodes == old(nodes)[node.name := node]
    {
      if node.name in nodes {
        return Err(NodeAlreadyExists);
      }
      nodes := nodes[node.name := node];
      items := BuildRingItems(hash, nodes);
      r := Ok(());
    }

    method Remove(name: string) returns (r: Result<(), NodeDoesNotExist>)
      requires Valid()
      modifies this`nodes, this`items
      ensures Valid() && (r.Err? <==> name !in old(nodes))
      ensures r.Err? ==> nodes == old(nodes) && items == old(items)
      ensures r.Ok? ==> nodes == old(nodes) - {name}
    {
      if name !in nodes {
        return Err(NodeDoesNotExist);
      }
      nodes := nodes - {name};
      items := BuildRingItems(hash, nodes);
      r := Ok(());
    }

    method Find(key: string) returns (r: Result<string, RingEmpty>)
      requires Valid()
      ensures r.Err? <==> items == []
      ensures r.Ok? ==> r.value in nodes && [r.value] == From(items, FindIndex(search, items, hash(key)).value, 1)
      ensures r.Ok? && NoTie(items, hash(key)) ==> [r.value] == FirstOwners(items, hash(key), 1)
    {
      var index := FindIndex(search, items, hash(key));
      if index.Err? {
        return Err(RingEmpty);
      }
      r := Ok(items[index.value].nodeName);
      RingCarries(hash, nodes, items);
      ItemsAreOfNodes(hash, nodes, items, index.value);
      FirstFrom(items, index.value);
      if NoTie(items, hash(key)) {
        FromIsFirstOwners(search, items, hash(key), 1);
      }
    }

    /**
      The first different owners clockwise from the key. The loop ends when that many nodes
      have a replica, and only then: see `FindNEndsIffEnoughReplicate`.
    */
    method FindN(key: string, num: nat) returns (r: Result<seq<string>, RingEmpty>)
      requires Valid() && CanFind(nodes, num)
      ensures r.Err? <==> items == []
      ensures r.Ok? ==> |r.value| == Min(|nodes|, num) && Distinct(r.value) && Elements(r.value) <= nodes.Keys
      ensures r.Ok? ==> r.value == From(items, FindIndex(search, items, hash(key)).value, Min(|nodes|, num))
      ensures r.Ok? && NoTie(items, hash(key)) ==> r.value == FirstOwners(items, hash(key), Min(|nodes|, num))
    {
      var wanted := Min(|nodes|, num);
      var index := FindIndex(search, items, hash(key));
      if index.Err? {
        return Err(RingEmpty);
      }
      RingCarries(hash, nodes, items);
      OwnersReplicate(hash, nodes, items);
      var found := CollectOwners(items, index.value, wanted);
      TurnFacts(hash, nodes, items, index.value, wanted);
      if NoTie(items, hash(key)) {
        FromIsFirstOwners(search, items, hash(key), wanted);
      }
      r := Ok(found);
    }
  }

  /** The first different owners met going round from an index. */
  function From(items: seq<Item>, start: nat, wanted: nat): seq<string>
    requires start <= |items|
  {
    Cut(Dedup(Turned(items, start)), wanted)
  }

  /** Without a tie, whatever the search answers, the walk from there is the clockwise one. */
  lemma FromAnswer(items: seq<Item>, key: nat, answer: Result<nat, nat>, wanted: nat)
    requires Sorted(items) && Searched(items, key, answer) && NoTie(items, key)
    ensures Landing(|items|, answer) <= |items|
    ensures From(items, Landing(|items|, answer), wanted) == FirstOwners(items, key, wanted)
  {
    LandsOnSuccessor(items, key, answer);
    TurnedIsClockwise(items, key);
  }

  lemma FromIsFirstOwners(search: Search, items: seq<Item>, key: nat, wanted: nat)
    requires Searches(search) && Sorted(items) && items != [] && NoTie(items, key)
    ensures From(items, FindIndex(search, items, key).value, wanted) == FirstOwners(items, key, wanted)
  {
    FromAnswer(items, key, search(items, key), wanted);
  }

  lemma FirstFrom(items: seq<Item>, start: nat)
    requires start < |items|
    ensures From(items, start, 1) == [items[start].nodeName]
  {
    TurnedAt(items, start, 0);
    FirstOfDedup(Turned(items, start));
  }

  /** The index and the names after a number of passes through the loop of `FindN`. */
  function Passes(items: seq<Item>, start: nat, n: nat): (nat, seq<string>)
    requires start < |items|
    ensures Passes(items, start, n).0 < |items|
  {
    if n == 0 then (start, [])
    else
      var (index, found) := Passes(items, start, n - 1);
      (NextIndex(items, index), Seen(found, items[index].nodeName))
  }

  /** A name is noted unless it was before. */
  function Seen(found: seq<string>, name: string): seq<string> {
    if name in found then found else found + [name]
  }

  lemma {:induction false} PassesIndex(items: seq<Item>, start: nat, t: nat)
    requires start < |items| && t <= |items|
    ensures Passes(items, start, t).0 == if start + t < |items| then start + t else start + t - |items|
    decreases t
  {
    if t > 0 {
      PassesIndex(items, start, t - 1);
    }
  }

  /** The owners in the order in which the passes look at them. */
  ghost predicate IsTurn(items: seq<Item>, start: nat, turn: seq<string>) {
    && start < |items| == |turn|
    && forall k :: 0 <= k < |turn| ==>
         turn[k] == items[if start + k < |items| then start + k else start + k - |items|].nodeName
  }

  lemma TurnedIsTurn(items: seq<Item>, start: nat)
    requires start < |items|
    ensures IsTurn(items, start, Turned(items, start))
  {
    TurnedAt(items, start, 0);
    forall k | 0 <= k < |items| ensures Turned(items, start)[k]
      == items[if start + k < |items| then start + k else start + k - |items|].nodeName
    {
      TurnedAt(items, start, k);
    }
  }

  /** Up to one full turn, the passes collect the first occurrences of the walk. */
  lemma {:induction false} PassesTurn(items: seq<Item>, start: nat, turn: seq<string>, t: nat)
    requires IsTurn(items, start, turn) && t <= |items|
    ensures Passes(items, start, t).1 == Dedup(turn[..t])
    decreases t
  {
    if t > 0 {
      PassesTurn(items, start, turn, t - 1);
      PassesIndex(items, start, t - 1);
      DedupStep(turn, t - 1);
    }
  }

  lemma DedupStep(s: seq<string>, t: nat)
    requires t < |s|
    ensures Dedup(s[..t + 1]) == Seen(Dedup(s[..t]), s[t])
  {
    assert s[..t + 1][..t] == s[..t];
  }

  /** The loop of `FindN`: goes round from an index until it has met enough owners. */
  method CollectOwners(items: seq<Item>, start: nat, wanted: nat) returns (found: seq<string>)
    requires start < |items| && wanted <= |Owners(items)|
    ensures wanted <= |Dedup(Turned(items, start))| && found == From(items, start, wanted)
  {
    var index := start;
    found := [];
    ghost var t := 0;
    TurnedIsTurn(items, start);
    while |found| < wanted
      invariant t <= |items| && |found| <= wanted
      invariant (index, found) == Passes(items, start, t)
      decreases |items| - t
    {
      PassesTurn(items, start, Turned(items, start), t);
      MoreToSee(items, start, t, wanted);
      var item := items[index];
      index := NextIndex(items, index);
      if item.nodeName !in found {
        found := found + [item.nodeName];
      }
      t := t + 1;
    }
    PassesTurn(items, start, Turned(items, start), t);
    SeenIsPrefix(items, start, t);
  }

  lemma TurnFacts(hash: Hash, nodes: map<string, Node>, items: seq<Item>, start: nat, wanted: nat)
    requires Carries(hash, nodes, items) && start < |items| && wanted <= |Dedup(Turned(items, start))|
    ensures Distinct(Dedup(Turned(items, start))[..wanted])
    ensures Elements(Dedup(Turned(items, start))[..wanted]) <= nodes.Keys
  {
    DedupDistinct(Turned(items, start));
    OwnersAreNodes(hash, nodes, items);
    TurnedMembers(items, start);
    forall x | x in Dedup(Turned(items, start))[..wanted] ensures x in nodes {
      DedupMembers(Turned(items, start), x);
      assert x in Elements(Turned(items, start));
    }
  }

  lemma ItemsAreOfNodes(hash: Hash, nodes: map<string, Node>, items: seq<Item>, i: nat)
    requires Carries(hash, nodes, items) && i < |items|
    ensures items[i].nodeName in nodes
  {
    CountMember(items, items[i]);
  }

  lemma FirstOfDedup<T>(s: seq<T>)
    requires s != []
    ensures Dedup(s) != [] && Dedup(s)[0] == s[0]
  {
    assert s == [s[0]] + s[1..];
    DedupPrefix([s[0]], s[1..]);
    assert [s[0]][..0] == [];
    assert Dedup([s[0]]) == [s[0]];
  }

  /** Going clockwise from the key, no index is met after another that comes before it. */
  predicate NoFarther(key: nat, a: nat, b: nat) {
    if a > key then b > key ==> a <= b else b <= key && a <= b
  }

  /** A key belongs to the node of the nearest item clockwise: the least index beyond its hash, or else the least of all. */
  lemma NearestOwner(items: seq<Item>, key: nat) returns (i: nat)
    requires Sorted(items) && items != []
    ensures i < |items| && FirstOwners(items, key, 1) == [items[i].nodeName]
    ensures forall j :: 0 <= j < |items| ==> NoFarther(key, items[i].ringIndex, items[j].ringIndex)
  {
    i := StartOf(items, key);
    Halves(items, key);
    TurnedIsClockwise(items, key);
    FirstFrom(items, i);
  }

  /** Of several nodes with one name the last one stays. */
  lemma {:induction false} CollectedLast(list: seq<Node>, i: nat)
    requires i < |list| && forall j :: i < j < |list| ==> list[j].name != list[i].name
    ensures list[i].name in Collected(list) && Collected(list)[list[i].name] == list[i]
  {
    if i < |list| - 1 {
      CollectedLast(list[..|list| - 1], i);
    }
  }

  lemma {:induction false} CollectedNames(list: seq<Node>, name: string)
    ensures name in Collected(list) <==> exists i :: 0 <= i < |list| && list[i].name == name
  {
    if list != [] {
      var init := list[..|list| - 1];
      CollectedNames(init, name);
      if i :| 0 <= i < |init| && init[i].name == name {
        assert list[i].name == name;
      }
      if i :| 0 <= i < |list| && list[i].name == name {
        assert i < |init| ==> init[i].name == name;
      }
    }
  }

  // ---------------------------------------------------------------- owners and termination

  lemma OwnersAreNodes(hash: Hash, nodes: map<string, Node>, items: seq<Item>)
    requires Carries(hash, nodes, items)
    ensures Owners(items) <= nodes.Keys
  {
    forall name | name in Names(items) ensures name in nodes {
      NamesAt(items);
      var i :| 0 <= i < |items| && Names(items)[i] == name;
      ItemsAreOfNodes(hash, nodes, items, i);
    }
  }

  lemma {:induction false} FirstCopy(hash: Hash, n: nat, name: string)
    requires n > 0
    ensures Copies(hash, n, Replica(hash, name, 0)) > 0
  {
    if n > 1 {
      FirstCopy(hash, n - 1, name);
    }
  }

  /** The nodes that own an item are those with a replica. */
  lemma OwnersReplicate(hash: Hash, nodes: map<string, Node>, items: seq<Item>)
    requires Carries(hash, nodes, items)
    ensures Owners(items) == Replicating(nodes)
    ensures items == [] <==> Replicating(nodes) == {}
  {
    NamesAt(items);
    forall k | k in Names(items) ensures k in Replicating(nodes) {
      var i :| 0 <= i < |items| && Names(items)[i] == k;
      CountMember(items, items[i]);
    }
    forall k | k in Replicating(nodes) ensures k in Names(items) {
      FirstCopy(hash, nodes[k].numReplicas, k);
      CountMember(items, Replica(hash, k, 0));
      var i :| 0 <= i < |items| && items[i] == Replica(hash, k, 0);
      assert Names(items)[i] == k;
    }
    if items != [] {
      assert Names(items)[0] in Owners(items);
    }
  }

  /** With a replica for every node any number of nodes can be looked up. */
  lemma EveryNodeOwns(nodes: map<string, Node>, num: nat)
    requires forall k :: k in nodes ==> nodes[k].numReplicas > 0
    ensures CanFind(nodes, num)
  {
    assert Replicating(nodes) == nodes.Keys;
  }

  lemma {:induction false} PassesStayOwners(items: seq<Item>, start: nat, n: nat)
    requires start < |items|
    ensures Distinct(Passes(items, start, n).1) && Elements(Passes(items, start, n).1) <= Owners(items)
  {
    if n > 0 {
      PassesStayOwners(items, start, n - 1);
      NamesAt(items);
      var (index, found) := Passes(items, start, n - 1);
      assert Names(items)[index] in Names(items);
    }
  }

  /** Asking a ring for more nodes than own an item never ends: the guard holds after every pass. */
  lemma LoopNeverEnds(items: seq<Item>, start: nat, wanted: nat, n: nat)
    requires start < |items| && wanted > |Owners(items)|
    ensures |Passes(items, start, n).1| < wanted
  {
    PassesStayOwners(items, start, n);
    DistinctCard(Passes(items, start, n).1);
    SubsetCard(Elements(Passes(items, start, n).1), Owners(items));
  }

  /** The loop ends if and only if as many nodes own an item as are wanted. */
  lemma LoopEndsIffEnoughOwners(items: seq<Item>, start: nat, wanted: nat)
    requires start < |items|
    ensures (exists n: nat :: |Passes(items, start, n).1| >= wanted) <==> wanted <= |Owners(items)|
  {
    if wanted <= |Owners(items)| {
      TurnedIsTurn(items, start);
      PassesTurn(items, start, Turned(items, start), |items|);
      TurnedOwners(items, start);
      assert Turned(items, start)[..|items|] == Turned(items, start);
      assert |Passes(items, start, |items|).1| >= wanted;
    } else {
      forall n: nat ensures |Passes(items, start, n).1| < wanted {
        LoopNeverEnds(items, start, wanted, n);
      }
    }
  }

  /** The loop of `FindN` on a ring that is not empty ends if and only if that many nodes have a replica. */
  lemma FindNEndsIffEnoughReplicate(hash: Hash, nodes: map<string, Node>, items: seq<Item>, start: nat, num: nat)
    requires IsRing(hash, nodes, items) && start < |items|
    ensures (exists n: nat :: |Passes(items, start, n).1| >= Min(|nodes|, num)) <==> CanFind(nodes, num)
  {
    RingCarries(hash, nodes, items);
    OwnersReplicate(hash, nodes, items);
    LoopEndsIffEnoughOwners(items, start, Min(|nodes|, num));
  }

  /** An input on which it does not end: two nodes asked for, of which one has no replica. */
  lemma FindNStuckAtAnInput(hash: Hash, nodes: map<string, Node>, items: seq<Item>, n: nat)
    requires nodes == map["a" := Node("a", 1), "b" := Node("b", 0)] && items == [Replica(hash, "a", 0)]
    ensures IsRing(hash, nodes, items) && !CanFind(nodes, 2)
    ensures |Passes(items, 0, n).1| < Min(|nodes|, 2)
  {
    OneItemRing(hash, nodes);
    OneOfTwo(nodes);
    RingCarries(hash, nodes, items);
    OwnersReplicate(hash, nodes, items);
    LoopNeverEnds(items, 0, 2, n);
  }

  lemma OneOfTwo(nodes: map<string, Node>)
    requires nodes == map["a" := Node("a", 1), "b" := Node("b", 0)]
    ensures |Replicating(nodes)| == 1 && |nodes| == 2
  {
    assert Replicating(nodes) == {"a"} && nodes.Keys == {"a", "b"};
  }

  lemma OneItemRing(hash: Hash, nodes: map<string, Node>)
    requires nodes == map["a" := Node("a", 1), "b" := Node("b", 0)]
    ensures IsRing(hash, nodes, [Replica(hash, "a", 0)])
  {
    var items := [Replica(hash, "a", 0)];
    assert Before("a", "b") && NameOrder(["a", "b"], nodes.Keys);
    assert ["a", "b"][..1] == ["a"] && ["a"][..0] == [] && items[..0] == [];
    assert ReplicasOf(hash, "a", 1) == items;
    assert AllReplicas(hash, nodes, ["a"]) == items;
    assert AllReplicas(hash, nodes, ["a", "b"]) == items;
    SortSmall(items[0], items[0]);
  }

  // ---------------------------------------------------------------- distinct indices

  /** Replica `i` of one node and replica `j` of another, or of the same, share a hash. */
  ghost predicate Collide(hash: Hash, nodes: map<string, Node>, a: string, i: nat, b: string, j: nat) {
    && a in nodes && i < nodes[a].numReplicas
    && b in nodes && j < nodes[b].numReplicas
    && (a != b || i != j)
    && hash(a + Decimal(i)) == hash(b + Decimal(j))
  }

  lemma {:induction false} CopyExists(hash: Hash, n: nat, x: Item) returns (i: nat)
    requires Copies(hash, n, x) >= 1
    ensures i < n && Replica(hash, x.nodeName, i) == x
  {
    i := n - 1;
    if Replica(hash, x.nodeName, n - 1) != x {
      i := CopyExists(hash, n - 1, x);
    }
  }

  lemma {:induction false} TwoCopies(hash: Hash, n: nat, x: Item) returns (i: nat, j: nat)
    requires Copies(hash, n, x) >= 2
    ensures i < j < n && Replica(hash, x.nodeName, i) == x == Replica(hash, x.nodeName, j)
  {
    if Replica(hash, x.nodeName, n - 1) == x {
      i := CopyExists(hash, n - 1, x);
      j := n - 1;
    } else {
      i, j := TwoCopies(hash, n - 1, x);
    }
  }

  lemma {:induction false} CopiesAtLeast(hash: Hash, n: nat, x: Item, i: nat)
    requires i < n && Replica(hash, x.nodeName, i) == x
    ensures Copies(hash, n, x) >= 1
    ensures forall j :: i < j < n && Replica(hash, x.nodeName, j) == x ==> Copies(hash, n, x) >= 2
  {
    if i < n - 1 {
      CopiesAtLeast(hash, n - 1, x, i);
    }
  }

  lemma {:induction false} CountsTwice(items: seq<Item>, x: Item) returns (i: nat, j: nat)
    requires Count(items, x) >= 2
    ensures i < j < |items| && items[i] == x == items[j]
  {
    var init := items[..|items| - 1];
    if items[|init|] == x {
      CountMember(init, x);
      i :| 0 <= i < |init| && init[i] == x;
      j := |init|;
    } else {
      i, j := CountsTwice(init, x);
    }
  }

  /** A ring with a tie comes from two replicas with one hash. */
  lemma TieCollides(hash: Hash, nodes: map<string, Node>, items: seq<Item>, i: nat, j: nat)
      returns (a: string, m: nat, b: string, n: nat)
    requires Carries(hash, nodes, items) && i < j < |items| && items[i].ringIndex == items[j].ringIndex
    ensures Collide(hash, nodes, a, m, b, n)
  {
    a, b := items[i].nodeName, items[j].nodeName;
    CountMember(items, items[i]);
    CountMember(items, items[j]);
    if a == b {
      CountTwice(items, i, j);
      m, n := TwoCopies(hash, nodes[a].numReplicas, items[i]);
    } else {
      m := CopyExists(hash, nodes[a].numReplicas, items[i]);
      n := CopyExists(hash, nodes[b].numReplicas, items[j]);
    }
  }

  /** Two replicas with one hash make a tie on the ring. */
  lemma CollisionTies(hash: Hash, nodes: map<string, Node>, items: seq<Item>, a: string, m: nat, b: string, n: nat)
      returns (i: nat, j: nat)
    requires Carries(hash, nodes, items) && Collide(hash, nodes, a, m, b, n)
    ensures i < j < |items| && items[i].ringIndex == items[j].ringIndex
  {
    var x, y := Replica(hash, a, m), Replica(hash, b, n);
    if a == b {
      CopiesAtLeast(hash, nodes[a].numReplicas, x, if m < n then m else n);
      assert Count(items, x) >= 2;
      i, j := CountsTwice(items, x);
    } else {
      CopiesAtLeast(hash, nodes[a].numReplicas, x, m);
      CopiesAtLeast(hash, nodes[b].numReplicas, y, n);
      CountMember(items, x);
      CountMember(items, y);
      var k, l :| 0 <= k < |items| && 0 <= l < |items| && items[k] == x && items[l] == y;
      i, j := if k < l then k else l, if k < l then l else k;
    }
  }

  /** The ring indices are distinct if and only if the hashes of all replicas are. */
  lemma StrictIffHashesDistinct(hash: Hash, nodes: map<string, Node>, items: seq<Item>)
    requires Carries(hash, nodes, items)
    ensures Strict(items) <==> forall a, i, b, j :: !Collide(hash, nodes, a, i, b, j)
  {
    if Strict(items) {
      forall a, i: nat, b, j: nat ensures !Collide(hash, nodes, a, i, b, j) {
        if Collide(hash, nodes, a, i, b, j) {
          var k, l := CollisionTies(hash, nodes, items, a, i, b, j);
          assert false;
        }
      }
    } else {
      var i, j :| 0 <= i < j < |items| && !(items[i].ringIndex < items[j].ringIndex);
      var a, m, b, n := TieCollides(hash, nodes, items, i, j);
    }
  }

  /** With distinct indices no key meets a tie, so the lookups are the reference for every key. */
  lemma StrictHasNoTies(items: seq<Item>, key: nat)
    requires Strict(items)
    ensures NoTie(items, key)
  {
    if |Filter(items, Exactly(key))| >= 2 {
      var i, j := TwoHits(items, key);
      assert false;
    }
  }

  // ---------------------------------------------------------------- changing membership

  /** Removing a node takes its items off the ring and moves no other. */
  lemma RemovedItems(hash: Hash, nodes: map<string, Node>, items: seq<Item>, name: string, items': seq<Item>)
    requires IsRing(hash, nodes, items) && IsRing(hash, nodes - {name}, items')
    ensures items' == Filter(items, NotOf(name))
  {
    var order :| NameOrder(order, nodes.Keys) && items == SortBy(AllReplicas(hash, nodes, order), RingIndex());
    var order' :| NameOrder(order', (nodes - {name}).Keys)
                  && items' == SortBy(AllReplicas(hash, nodes - {name}, order'), RingIndex());
    OrderWithout(order, nodes.Keys, name);
    assert (nodes - {name}).Keys == nodes.Keys - {name};
    OrderUnique(order', Without(order, name), nodes.Keys - {name});
    AllReplicasWithout(hash, nodes, order, name);
    FilterSorts(AllReplicas(hash, nodes, order), NotOf(name));
  }

  lemma ClockwiseWithout(items: seq<Item>, key: nat, name: string)
    ensures Clockwise(Filter(items, NotOf(name)), key) == Without(Clockwise(items, key), name)
  {
    var high, low := Filter(items, Beyond(key)), Filter(items, UpTo(key));
    FilterCommutes(items, NotOf(name), Beyond(key));
    FilterCommutes(items, NotOf(name), UpTo(key));
    FilterConcat(high, low, NotOf(name));
    NamesWithout(high + low, name);
  }

  /**
    Minimal disruption: removing a node deletes it from every key's walk and changes
    nothing else.
  */
  lemma RemovalDeletesFromWalk(hash: Hash, nodes: map<string, Node>, items: seq<Item>, name: string,
                               items': seq<Item>, key: nat)
    requires IsRing(hash, nodes, items) && IsRing(hash, nodes - {name}, items')
    ensures Clockwise(items', key) == Without(Clockwise(items, key), name)
    ensures Dedup(Clockwise(items', key)) == Without(Dedup(Clockwise(items, key)), name)
  {
    RemovedItems(hash, nodes, items, name, items');
    ClockwiseWithout(items, key, name);
    DedupWithout(Clockwise(items, key), name);
  }

  /** A key keeps its node unless that node was the one removed. */
  lemma RemovalMovesOnlyOwnKeys(hash: Hash, nodes: map<string, Node>, items: seq<Item>, name: string,
                                items': seq<Item>, key: nat)
    requires IsRing(hash, nodes, items) && IsRing(hash, nodes - {name}, items') && items != []
    requires FirstOwners(items, key, 1) != [name]
    ensures FirstOwners(items', key, 1) == FirstOwners(items, key, 1)
  {
    RemovalDeletesFromWalk(hash, nodes, items, name, items', key);
    RingCarries(hash, nodes, items);
    SomeOwner(items, key);
    SameFirst(Dedup(Clockwise(items, key)), name);
  }

  lemma SomeOwner(items: seq<Item>, key: nat)
    requires Sorted(items) && items != []
    ensures Dedup(Clockwise(items, key)) != []
  {
    Halves(items, key);
    NamesAt(Filter(items, Beyond(key)) + Filter(items, UpTo(key)));
    FirstOfDedup(Clockwise(items, key));
  }

  lemma SameFirst(owners: seq<string>, name: string)
    requires owners != [] && Cut(owners, 1) != [name]
    ensures Cut(Without(owners, name), 1) == Cut(owners, 1)
  {
    assert Cut(owners, 1) == [owners[0]];
    WithoutHead(owners, name);
  }

  lemma WithoutHead<T>(s: seq<T>, x: T)
    requires s != [] && s[0] != x
    ensures Without(s, x) != [] && Without(s, x)[0] == s[0]
  {
    assert s == [s[0]] + s[1..];
    WithoutConcat([s[0]], s[1..], x);
    assert [s[0]][..0] == [];
  }

  /** The lookup of n nodes after a removal is the lookup of n + 1 before it, without the removed node, cut to n. */
  lemma RemovalShiftsLookups(hash: Hash, nodes: map<string, Node>, items: seq<Item>, name: string,
                             items': seq<Item>, key: nat, n: nat)
    requires IsRing(hash, nodes, items) && IsRing(hash, nodes - {name}, items') && name in nodes
    ensures var m := Min(|nodes - {name}|, n);
      FirstOwners(items', key, m) == Cut(Without(FirstOwners(items, key, Min(|nodes|, n + 1)), name), m)
  {
    RemovalDeletesFromWalk(hash, nodes, items, name, items', key);
    FewerNodes(nodes, name);
    DedupDistinct(Clockwise(items, key));
    Shifted(Dedup(Clockwise(items, key)), name, |nodes| - 1, n);
  }

  lemma FewerNodes(nodes: map<string, Node>, name: string)
    requires name in nodes
    ensures |nodes - {name}| == |nodes| - 1
  {
    assert (nodes - {name}).Keys == nodes.Keys - {name};
  }

  lemma Shifted(owners: seq<string>, name: string, k: nat, n: nat)
    requires Distinct(owners)
    ensures Cut(Without(owners, name), Min(k, n)) == Cut(Without(Cut(owners, Min(k + 1, n + 1)), name), Min(k, n))
  {
    OneFewer(owners, name, Min(k, n));
  }

  lemma OneFewer(owners: seq<string>, name: string, m: nat)
    requires Distinct(owners)
    ensures Cut(Without(owners, name), m) == Cut(Without(Cut(owners, m + 1), name), m)
  {
    var k := Min(m, |Without(owners, name)|);
    WithoutLength(owners, name);
    WithoutCut(owners, name, k);
    if m + 1 <= |owners| {
      WithoutLength(owners[..m + 1], name);
    } else {
      assert Cut(owners, m + 1) == owners;
    }
  }

  /** A key without a tie has none after a removal. */
  lemma NoTieKept(items: seq<Item>, key: nat, name: string)
    requires NoTie(items, key)
    ensures NoTie(Filter(items, NotOf(name)), key)
  {
    FilterCommutes(items, NotOf(name), Exactly(key));
    FilterLength(Filter(items, Exactly(key)), NotOf(name));
  }

  lemma {:induction false} FilterLength(items: seq<Item>, p: Item -> bool)
    ensures |Filter(items, p)| <= |items|
  {
    if items != [] {
      FilterLength(items[..|items| - 1], p);
    }
  }

  /**
    What the lookups themselves give: for a key that meets no tie, and whatever the search
    answers on the two rings, the names found after a removal are those found before it
    without the removed node.
  */
  lemma RemovalShiftsFound(hash: Hash, nodes: map<string, Node>, items: seq<Item>, before: Result<nat, nat>, name: string,
                           items': seq<Item>, after: Result<nat, nat>, key: nat, n: nat)
    requires IsRing(hash, nodes, items) && IsRing(hash, nodes - {name}, items') && name in nodes
    requires NoTie(items, key) && Searched(items, key, before) && Searched(items', key, after)
    ensures Landing(|items|, before) <= |items| && Landing(|items'|, after) <= |items'|
    ensures var m := Min(|nodes - {name}|, n);
      From(items', Landing(|items'|, after), m)
      == Cut(Without(From(items, Landing(|items|, before), Min(|nodes|, n + 1)), name), m)
  {
    RemovedItems(hash, nodes, items, name, items');
    RingCarries(hash, nodes, items);
    RingCarries(hash, nodes - {name}, items');
    NoTieKept(items, key, name);
    FromAnswer(items', key, after, Min(|nodes - {name}|, n));
    FromAnswer(items, key, before, Min(|nodes|, n + 1));
    RemovalShiftsLookups(hash, nodes, items, name, items', key, n);
  }

  /** Adding a node undoes its removal, so only keys that the new node takes over move. */
  lemma AdditionMovesOnlyToNewNode(hash: Hash, nodes: map<string, Node>, items: seq<Item>, node: Node,
                                   items': seq<Item>, key: nat)
    requires IsRing(hash, nodes, items) && node.name !in nodes
    requires IsRing(hash, nodes[node.name := node], items') && items' != []
    ensures Clockwise(items, key) == Without(Clockwise(items', key), node.name)
    ensures FirstOwners(items', key, 1) == [node.name] || FirstOwners(items', key, 1) == FirstOwners(items, key, 1)
  {
    var nodes' := nodes[node.name := node];
    assert nodes' - {node.name} == nodes;
    RemovalDeletesFromWalk(hash, nodes', items', node.name, items, key);
    if FirstOwners(items', key, 1) != [node.name] {
      RemovalMovesOnlyOwnKeys(hash, nodes', items', node.name, items, key);
    }
  }
}
