/** The items of a hash ring: how they are built, searched and walked. */
module RingItems {
  import opened Options
  import opened Counting
  import opened RingWalk
  import opened Sorting

  datatype Node = Node(name: string, numReplicas: nat)

  datatype Item = Item(ringIndex: nat, nodeName: string)

  type Hash = string -> nat

  function RingIndex(): Item -> nat {
    (x: Item) => x.ringIndex
  }

  predicate Sorted(items: seq<Item>) {
    forall i, j :: 0 <= i < j < |items| ==> items[i].ringIndex <= items[j].ringIndex
  }

  /** Sorted with distinct ring indices. */
  predicate Strict(items: seq<Item>) {
    forall i, j :: 0 <= i < j < |items| ==> items[i].ringIndex < items[j].ringIndex
  }

  // ---------------------------------------------------------------- building

  function Decimal(n: nat): string {
    (if n < 10 then "" else Decimal(n / 10)) + [('0' as int + n % 10) as char]
  }

  /** The number that a numeral stands for. */
  function Number(digits: string): int {
    if digits == [] then 0 else 10 * Number(digits[..|digits| - 1]) + (digits[|digits| - 1] as int - '0' as int)
  }

  lemma {:induction false} DecimalReads(n: nat)
    ensures Number(Decimal(n)) == n
    ensures forall i :: 0 <= i < |Decimal(n)| ==> '0' <= Decimal(n)[i] <= '9'
    ensures Decimal(n)[0] == '0' <==> n == 0
  {
    if n >= 10 {
      DecimalReads(n / 10);
      assert Decimal(n)[..|Decimal(n)| - 1] == Decimal(n / 10);
    } else {
      assert Decimal(n)[..0] == [];
    }
  }

  /** The replicas of a node are hashed under different names. */
  lemma ReplicaNamesDiffer(name: string, i: nat, j: nat)
    requires i != j
    ensures name + Decimal(i) != name + Decimal(j)
  {
    DecimalReads(i);
    DecimalReads(j);
    assert (name + Decimal(i))[|name|..] == Decimal(i) && (name + Decimal(j))[|name|..] == Decimal(j);
  }

  function Replica(hash: Hash, name: string, idx: nat): Item {
    Item(hash(name + Decimal(idx)), name)
  }

  /** How often an item is among the first n replicas of its node. */
  function Copies(hash: Hash, n: nat, x: Item): nat {
    if n == 0 then 0 else Copies(hash, n - 1, x) + if Replica(hash, x.nodeName, n - 1) == x then 1 else 0
  }

  function Replicated(hash: Hash, nodes: map<string, Node>, x: Item): nat {
    if x.nodeName in nodes then Copies(hash, nodes[x.nodeName].numReplicas, x) else 0
  }

  /** Sorted, with every replica as often as it occurs. */
  ghost predicate Carries(hash: Hash, nodes: map<string, Node>, items: seq<Item>) {
    Sorted(items) && forall x :: Count(items, x) == Replicated(hash, nodes, x)
  }

  /** The order of names in the table of nodes: by characters, a prefix first. */
  predicate Before(a: string, b: string) {
    b != [] && (a == [] || a[0] < b[0] || (a[0] == b[0] && Before(a[1..], b[1..])))
  }

  ghost predicate NameOrder(order: seq<string>, names: set<string>) {
    Elements(order) == names && forall i, j :: 0 <= i < j < |order| ==> Before(order[i], order[j])
  }

  function ReplicasOf(hash: Hash, name: string, n: nat): seq<Item> {
    if n == 0 then [] else ReplicasOf(hash, name, n - 1) + [Replica(hash, name, n - 1)]
  }

  /** The replicas of the named nodes, node by node. */
  function AllReplicas(hash: Hash, nodes: map<string, Node>, order: seq<string>): seq<Item> {
    if order == [] then []
    else
      var init, last := AllReplicas(hash, nodes, order[..|order| - 1]), order[|order| - 1];
      if last in nodes then init + ReplicasOf(hash, last, nodes[last].numReplicas) else init
  }

  /**
    The ring of a set of nodes: the replicas in the order of the names, sorted by index
    without disturbing that order among equal indices.
  */
  ghost predicate IsRing(hash: Hash, nodes: map<string, Node>, items: seq<Item>) {
    exists order :: NameOrder(order, nodes.Keys) && items == SortBy(AllReplicas(hash, nodes, order), RingIndex())
  }

  /** Every node is stored under its own name. */
  ghost predicate Named(nodes: map<string, Node>) {
    forall k :: k in nodes ==> nodes[k].name == k
  }

  /** The names of a table in the order in which it is walked. */
  method InNameOrder(names: set<string>) returns (order: seq<string>)
    ensures NameOrder(order, names)
  {
    order := [];
    var todo := names;
    ghost var done := {};
    while todo != {}
      invariant todo + done == names && NameOrder(order, done)
      invariant forall j, k :: j in done && k in todo ==> Before(j, k)
    {
      var k := LeastName(todo);
      assert forall i :: 0 <= i < |order| ==> order[i] in Elements(order);
      OrderAppend(order, done, k);
      order, todo, done := order + [k], todo - {k}, done + {k};
    }
    assert done == names;
  }

  method BuildRingItems(hash: Hash, nodes: map<string, Node>) returns (items: seq<Item>)
    requires Named(nodes)
    ensures IsRing(hash, nodes, items)
  {
    items := [];
    var order := InNameOrder(nodes.Keys);
    for i := 0 to |order|
      invariant items == AllReplicas(hash, nodes, order[..i])
    {
      assert order[i] in Elements(order);
      var node := nodes[order[i]];
      ghost var before := items;
      for idx := 0 to node.numReplicas
        invariant items == before + ReplicasOf(hash, node.name, idx)
      {
        items := items + [Replica(hash, node.name, idx)];
      }
      assert order[..i + 1][..i] == order[..i];
    }
    assert order[..|order|] == order;
    items := SortBy(items, RingIndex());
  }

  // ---------------------------------------------------------------- the order of names

  lemma {:induction false} BeforeTotal(a: string, b: string)
    ensures a == b || Before(a, b) || Before(b, a)
  {
    if a != [] && b != [] && a[0] == b[0] {
      BeforeTotal(a[1..], b[1..]);
      assert a == [a[0]] + a[1..] && b == [b[0]] + b[1..];
    }
  }

  lemma {:induction false} BeforeStrict(a: string, b: string)
    ensures !(Before(a, b) && Before(b, a))
  {
    if a != [] && b != [] {
      BeforeStrict(a[1..], b[1..]);
    }
  }

  lemma {:induction false} BeforeTransitive(a: string, b: string, c: string)
    requires Before(a, b) && Before(b, c)
    ensures Before(a, c)
  {
    if a != [] && a[0] == b[0] == c[0] {
      BeforeTransitive(a[1..], b[1..], c[1..]);
    }
  }

  /** The first of some names. */
  method LeastName(names: set<string>) returns (k: string)
    requires names != {}
    ensures k in names && forall j :: j in names && j != k ==> Before(k, j)
  {
    k :| k in names;
    var todo := names - {k};
    while todo != {}
      invariant k in names && todo <= names && k !in todo
      invariant forall j :: j in names - todo && j != k ==> Before(k, j)
    {
      var j :| j in todo;
      todo := todo - {j};
      BeforeTotal(j, k);
      if Before(j, k) {
        forall i | i in names - todo && i != j && i != k ensures Before(j, i) {
          BeforeTransitive(j, k, i);
        }
        k := j;
      }
    }
  }

  /** Names can be put in order in one way. */
  lemma {:induction false} OrderUnique(a: seq<string>, b: seq<string>, names: set<string>)
    requires NameOrder(a, names) && NameOrder(b, names)
    ensures a == b
    decreases |a|
  {
    if a == [] {
      assert forall i :: 0 <= i < |b| ==> b[i] in Elements(b);
    } else {
      assert a[0] in names;
      assert b != [];
      assert b[0] in names;
      var i :| 0 <= i < |a| && a[i] == b[0];
      var j :| 0 <= j < |b| && b[j] == a[0];
      BeforeStrict(a[0], b[0]);
      assert a[0] == b[0];
      TailOrder(a, names);
      TailOrder(b, names);
      OrderUnique(a[1..], b[1..], names - {a[0]});
      assert a == [a[0]] + a[1..] && b == [b[0]] + b[1..];
    }
  }

  lemma OrderAppend(order: seq<string>, names: set<string>, k: string)
    requires NameOrder(order, names) && forall i :: 0 <= i < |order| ==> Before(order[i], k)
    ensures NameOrder(order + [k], names + {k})
  {
    assert Elements(order + [k]) == Elements(order) + {k};
  }

  lemma TailOrder(a: seq<string>, names: set<string>)
    requires a != [] && NameOrder(a, names)
    ensures NameOrder(a[1..], names - {a[0]})
  {
    forall i | 0 < i < |a| ensures a[i] != a[0] {
      BeforeStrict(a[0], a[i]);
    }
    assert a == [a[0]] + a[1..];
  }

  lemma {:induction false} AscendingWithout(order: seq<string>, name: string)
    requires forall i, j :: 0 <= i < j < |order| ==> Before(order[i], order[j])
    ensures forall i, j :: 0 <= i < j < |Without(order, name)| ==> Before(Without(order, name)[i], Without(order, name)[j])
  {
    if order != [] {
      var init, last := order[..|order| - 1], order[|order| - 1];
      AscendingWithout(init, name);
      var rest := Without(init, name);
      forall i | 0 <= i < |rest| ensures Before(rest[i], last) {
        WithoutMembers(init, name, rest[i]);
        var k :| 0 <= k < |init| && init[k] == rest[i];
        assert Before(order[k], last);
      }
    }
  }

  lemma OrderWithout(order: seq<string>, names: set<string>, name: string)
    requires NameOrder(order, names)
    ensures NameOrder(Without(order, name), names - {name})
  {
    AscendingWithout(order, name);
    forall x ensures x in Elements(Without(order, name)) <==> x in Elements(order) - {name} {
      WithoutMembers(order, name, x);
    }
  }

  // ---------------------------------------------------------------- what the ring carries

  lemma {:induction false} ReplicasCount(hash: Hash, name: string, n: nat, x: Item)
    ensures Count(ReplicasOf(hash, name, n), x) == if x.nodeName == name then Copies(hash, n, x) else 0
  {
    if n > 0 {
      ReplicasCount(hash, name, n - 1, x);
      CountAppend(ReplicasOf(hash, name, n - 1), Replica(hash, name, n - 1), x);
    }
  }

  lemma {:induction false} AllReplicasCount(hash: Hash, nodes: map<string, Node>, order: seq<string>, x: Item)
    requires NameOrder(order, Elements(order))
    ensures Count(AllReplicas(hash, nodes, order), x) == if x.nodeName in order then Replicated(hash, nodes, x) else 0
  {
    if order != [] {
      var init, last := order[..|order| - 1], order[|order| - 1];
      assert order == init + [last];
      AllReplicasCount(hash, nodes, init, x);
      forall y | y in init ensures y != last {
        BeforeStrict(y, last);
      }
      if last in nodes {
        CountConcat(AllReplicas(hash, nodes, init), ReplicasOf(hash, last, nodes[last].numReplicas), x);
        ReplicasCount(hash, last, nodes[last].numReplicas, x);
      }
    }
  }

  lemma RingCarries(hash: Hash, nodes: map<string, Node>, items: seq<Item>)
    requires IsRing(hash, nodes, items)
    ensures Carries(hash, nodes, items)
  {
    var order :| NameOrder(order, nodes.Keys) && items == SortBy(AllReplicas(hash, nodes, order), RingIndex());
    var all := AllReplicas(hash, nodes, order);
    SortAscends(all, RingIndex());
    forall x ensures Count(items, x) == Replicated(hash, nodes, x) {
      SortCount(all, RingIndex(), x);
      AllReplicasCount(hash, nodes, order, x);
      assert x.nodeName in order <==> x.nodeName in nodes.Keys;
    }
  }

  // ---------------------------------------------------------------- selecting items

  function Filter(items: seq<Item>, p: Item -> bool): seq<Item> {
    if items == [] then []
    else if p(items[|items| - 1]) then Filter(items[..|items| - 1], p) + [items[|items| - 1]]
    else Filter(items[..|items| - 1], p)
  }

  function UpTo(key: nat): Item -> bool {
    (x: Item) => x.ringIndex <= key
  }

  function Beyond(key: nat): Item -> bool {
    (x: Item) => x.ringIndex > key
  }

  function Exactly(key: nat): Item -> bool {
    (x: Item) => x.ringIndex == key
  }

  function NotOf(name: string): Item -> bool {
    (x: Item) => x.nodeName != name
  }

  function Names(items: seq<Item>): seq<string> {
    if items == [] then [] else Names(items[..|items| - 1]) + [items[|items| - 1].nodeName]
  }

  /** The owners met going clockwise from the first index beyond the key, all the way round. */
  function Clockwise(items: seq<Item>, key: nat): seq<string> {
    Names(Filter(items, Beyond(key)) + Filter(items, UpTo(key)))
  }

  lemma FilterAppend(items: seq<Item>, x: Item, p: Item -> bool)
    ensures Filter(items + [x], p) == if p(x) then Filter(items, p) + [x] else Filter(items, p)
  {
    assert (items + [x])[..|items|] == items;
  }

  lemma {:induction false} FilterCommutes(items: seq<Item>, p: Item -> bool, q: Item -> bool)
    ensures Filter(Filter(items, p), q) == Filter(Filter(items, q), p)
  {
    if items != [] {
      var init, last := items[..|items| - 1], items[|items| - 1];
      FilterCommutes(init, p, q);
      FilterAppend(Filter(init, p), last, q);
      FilterAppend(Filter(init, q), last, p);
    }
  }

  lemma {:induction false} FilterConcat(a: seq<Item>, b: seq<Item>, p: Item -> bool)
    ensures Filter(a + b, p) == Filter(a, p) + Filter(b, p)
  {
    if b == [] {
      assert a + b == a;
    } else {
      assert (a + b)[..|a + b| - 1] == a + b[..|b| - 1];
      FilterConcat(a, b[..|b| - 1], p);
    }
  }

  lemma {:induction false} FilterInsert(items: seq<Item>, x: Item, p: Item -> bool)
    requires Sorted(items)
    ensures Filter(Insert(items, x, RingIndex()), p)
         == if p(x) then Insert(Filter(items, p), x, RingIndex()) else Filter(items, p)
  {
    if items == [] || items[|items| - 1].ringIndex <= x.ringIndex {
      FilterAppend(items, x, p);
      FilterMembers(items, p);
      InsertLast(Filter(items, p), x);
    } else {
      var init, last := items[..|items| - 1], items[|items| - 1];
      FilterInsert(init, x, p);
      FilterAppend(Insert(init, x, RingIndex()), last, p);
      InsertUnder(Filter(init, p), last, x);
    }
  }

  lemma InsertLast(items: seq<Item>, x: Item)
    requires forall i :: 0 <= i < |items| ==> items[i].ringIndex <= x.ringIndex
    ensures Insert(items, x, RingIndex()) == items + [x]
  {
  }

  lemma InsertUnder(items: seq<Item>, last: Item, x: Item)
    requires last.ringIndex > x.ringIndex
    ensures Insert(items + [last], x, RingIndex()) == Insert(items, x, RingIndex()) + [last]
  {
    assert (items + [last])[..|items|] == items;
  }

  lemma {:induction false} FilterMembers(items: seq<Item>, p: Item -> bool)
    ensures forall i :: 0 <= i < |Filter(items, p)| ==> Filter(items, p)[i] in items
  {
    if items != [] {
      FilterMembers(items[..|items| - 1], p);
    }
  }

  /** Leaving items out before a stable sort or after it is the same. */
  lemma {:induction false} FilterSorts(items: seq<Item>, p: Item -> bool)
    ensures Filter(SortBy(items, RingIndex()), p) == SortBy(Filter(items, p), RingIndex())
  {
    if items != [] {
      var init, last := items[..|items| - 1], items[|items| - 1];
      FilterSorts(init, p);
      SortAscends(init, RingIndex());
      FilterInsert(SortBy(init, RingIndex()), last, p);
      if p(last) {
        assert (Filter(init, p) + [last])[..|Filter(init, p)|] == Filter(init, p);
      }
    }
  }

  lemma {:induction false} FilterReplicas(hash: Hash, name: string, n: nat, out: string)
    ensures Filter(ReplicasOf(hash, name, n), NotOf(out)) == if name == out then [] else ReplicasOf(hash, name, n)
  {
    if n > 0 {
      FilterReplicas(hash, name, n - 1, out);
      FilterAppend(ReplicasOf(hash, name, n - 1), Replica(hash, name, n - 1), NotOf(out));
    }
  }

  lemma {:induction false} AllReplicasWithout(hash: Hash, nodes: map<string, Node>, order: seq<string>, name: string)
    ensures AllReplicas(hash, nodes - {name}, Without(order, name)) == Filter(AllReplicas(hash, nodes, order), NotOf(name))
  {
    if order != [] {
      var init, last := order[..|order| - 1], order[|order| - 1];
      AllReplicasWithout(hash, nodes, init, name);
      if last != name {
        assert (Without(init, name) + [last])[..|Without(init, name)|] == Without(init, name);
      }
      if last in nodes {
        FilterConcat(AllReplicas(hash, nodes, init), ReplicasOf(hash, last, nodes[last].numReplicas), NotOf(name));
        FilterReplicas(hash, last, nodes[last].numReplicas, name);
      }
    }
  }

  lemma {:induction false} NamesConcat(a: seq<Item>, b: seq<Item>)
    ensures Names(a + b) == Names(a) + Names(b)
  {
    if b == [] {
      assert a + b == a;
    } else {
      assert (a + b)[..|a + b| - 1] == a + b[..|b| - 1];
      NamesConcat(a, b[..|b| - 1]);
    }
  }

  lemma {:induction false} NamesAt(items: seq<Item>)
    ensures |Names(items)| == |items|
    ensures forall i :: 0 <= i < |items| ==> Names(items)[i] == items[i].nodeName
  {
    if items != [] {
      NamesAt(items[..|items| - 1]);
    }
  }

  lemma NamesAppend(items: seq<Item>, x: Item)
    ensures Names(items + [x]) == Names(items) + [x.nodeName]
  {
    assert (items + [x])[..|items|] == items;
  }

  lemma {:induction false} NamesWithout(items: seq<Item>, name: string)
    ensures Names(Filter(items, NotOf(name))) == Without(Names(items), name)
  {
    if items != [] {
      var init, last := items[..|items| - 1], items[|items| - 1];
      NamesWithout(init, name);
      NamesAppend(Filter(init, NotOf(name)), last);
      assert (Names(init) + [last.nodeName])[..|Names(init)|] == Names(init);
    }
  }

  // ---------------------------------------------------------------- searching

  lemma {:induction false} FilterWhole(items: seq<Item>, p: Item -> bool)
    requires forall i :: 0 <= i < |items| ==> p(items[i])
    ensures Filter(items, p) == items
  {
    if items != [] {
      FilterWhole(items[..|items| - 1], p);
    }
  }

  lemma {:induction false} FilterNone(items: seq<Item>, p: Item -> bool)
    requires forall i :: 0 <= i < |items| ==> !p(items[i])
    ensures Filter(items, p) == []
  {
    if items != [] {
      FilterNone(items[..|items| - 1], p);
    }
  }

  lemma {:induction false} CutPoint(items: seq<Item>, key: nat) returns (u: nat)
    requires Sorted(items)
    ensures u <= |items|
    ensures forall j :: 0 <= j < u ==> items[j].ringIndex <= key
    ensures forall j :: u <= j < |items| ==> items[j].ringIndex > key
  {
    u := |items|;
    if items != [] && items[|items| - 1].ringIndex > key {
      u := CutPoint(items[..|items| - 1], key);
    }
  }

  /** The two halves of a sorted ring. */
  lemma Halves(items: seq<Item>, key: nat)
    requires Sorted(items)
    ensures |Filter(items, UpTo(key))| <= |items|
    ensures Filter(items, UpTo(key)) == items[..|Filter(items, UpTo(key))|]
    ensures Filter(items, Beyond(key)) == items[|Filter(items, UpTo(key))|..]
    ensures forall j :: 0 <= j < |Filter(items, UpTo(key))| ==> items[j].ringIndex <= key
    ensures forall j :: |Filter(items, UpTo(key))| <= j < |items| ==> items[j].ringIndex > key
  {
    var u := CutPoint(items, key);
    var low, high := items[..u], items[u..];
    assert items == low + high;
    FilterConcat(low, high, UpTo(key));
    FilterConcat(low, high, Beyond(key));
    FilterWhole(low, UpTo(key));
    FilterNone(high, UpTo(key));
    FilterNone(low, Beyond(key));
    FilterWhole(high, Beyond(key));
  }

  /** Where the walk starts: the first item beyond the key, or the first item of all. */
  function StartOf(items: seq<Item>, key: nat): nat {
    var u := |Filter(items, UpTo(key))|;
    if u >= |items| then 0 else u
  }

  /** The answers a binary search may give: any position of the key, or where it would go. */
  ghost predicate Searched(items: seq<Item>, key: nat, r: Result<nat, nat>) {
    match r
    case Ok(i) => i < |items| && items[i].ringIndex == key
    case Err(i) =>
      && i <= |items|
      && (forall j :: 0 <= j < i ==> items[j].ringIndex < key)
      && (forall j :: i <= j < |items| ==> items[j].ringIndex > key)
  }

  /** A search of the items. Among several on the key it may report any, but always the same. */
  type Search = (seq<Item>, nat) -> Result<nat, nat>

  ghost predicate Searches(search: Search) {
    forall items, key :: Sorted(items) ==> Searched(items, key, search(items, key))
  }

  function Bisect(items: seq<Item>, key: nat, lo: nat, hi: nat): Result<nat, nat>
    requires lo <= hi <= |items|
    decreases hi - lo
  {
    if lo == hi then Err(lo)
    else
      var mid := (lo + hi) / 2;
      if items[mid].ringIndex == key then Ok(mid)
      else if items[mid].ringIndex < key then Bisect(items, key, mid + 1, hi)
      else Bisect(items, key, lo, mid)
  }

  lemma {:induction false} BisectSearches(items: seq<Item>, key: nat, lo: nat, hi: nat)
    requires Sorted(items) && lo <= hi <= |items|
    requires forall j :: 0 <= j < lo ==> items[j].ringIndex < key
    requires forall j :: hi <= j < |items| ==> items[j].ringIndex > key
    ensures Searched(items, key, Bisect(items, key, lo, hi))
    decreases hi - lo
  {
    if lo < hi {
      var mid := (lo + hi) / 2;
      if items[mid].ringIndex < key {
        BisectSearches(items, key, mid + 1, hi);
      } else if items[mid].ringIndex > key {
        BisectSearches(items, key, lo, mid);
      }
    }
  }

  /** Binary search is such a search. */
  lemma BinarySearchSearches()
    ensures Searches((items: seq<Item>, key: nat) => Bisect(items, key, 0, |items|))
  {
    forall items, key | Sorted(items) ensures Searched(items, key, Bisect(items, key, 0, |items|)) {
      BisectSearches(items, key, 0, |items|);
    }
  }

  /** The position taken from an answer: past the item that was hit, and round the end. */
  function Landing(len: nat, r: Result<nat, nat>): nat {
    var index := match r case Ok(i) => i + 1 case Err(i) => i;
    if index >= len then 0 else index
  }

  lemma {:induction false} Hits(items: seq<Item>, key: nat, i: nat, j: nat)
    requires i < j < |items| && items[i].ringIndex == key == items[j].ringIndex
    ensures |Filter(items, Exactly(key))| >= 2
  {
    assert items == items[..j] + items[j..];
    assert items[..j] == items[..i] + items[i..j];
    FilterConcat(items[..j], items[j..], Exactly(key));
    FilterConcat(items[..i], items[i..j], Exactly(key));
    HitFirst(items[i..j], key);
    HitFirst(items[j..], key);
  }

  lemma {:induction false} HitFirst(items: seq<Item>, key: nat)
    requires items != [] && items[0].ringIndex == key
    ensures |Filter(items, Exactly(key))| >= 1
  {
    assert items == [items[0]] + items[1..];
    FilterConcat([items[0]], items[1..], Exactly(key));
    assert [items[0]][..0] == [];
  }

  /** With at most one item on the key's own index, every answer lands on the clockwise successor. */
  lemma LandsOnSuccessor(items: seq<Item>, key: nat, r: Result<nat, nat>)
    requires Sorted(items) && Searched(items, key, r) && |Filter(items, Exactly(key))| <= 1
    ensures Landing(|items|, r) == StartOf(items, key)
  {
    Halves(items, key);
    var u := |Filter(items, UpTo(key))|;
    if r.Ok? {
      if r.value + 1 < u {
        Hits(items, key, r.value, r.value + 1);
      }
    } else {
      assert u == r.error;
    }
  }

  lemma {:induction false} OneHit(items: seq<Item>, key: nat) returns (i: nat)
    requires Filter(items, Exactly(key)) != []
    ensures i < |items| && items[i].ringIndex == key
  {
    var init := items[..|items| - 1];
    i := |init|;
    if items[|init|].ringIndex != key {
      i := OneHit(init, key);
    }
  }

  lemma {:induction false} TwoHits(items: seq<Item>, key: nat) returns (i: nat, j: nat)
    requires |Filter(items, Exactly(key))| >= 2
    ensures i < j < |items| && items[i].ringIndex == key == items[j].ringIndex
  {
    var init := items[..|items| - 1];
    if items[|init|].ringIndex == key {
      i := OneHit(init, key);
      j := |init|;
    } else {
      i, j := TwoHits(init, key);
    }
  }

  /** With two, an answer exists that stops on the key's own index instead of beyond it. */
  lemma TieStopsShort(items: seq<Item>, key: nat) returns (r: Result<nat, nat>)
    requires Sorted(items) && |Filter(items, Exactly(key))| >= 2
    ensures Searched(items, key, r) && Landing(|items|, r) != StartOf(items, key)
  {
    var i, j := TwoHits(items, key);
    Halves(items, key);
    r := Ok(i);
  }

  /** The search finds the clockwise successor, whatever its answer, if and only if no two items share the key's index. */
  lemma SuccessorIffNoTie(items: seq<Item>, key: nat)
    requires Sorted(items)
    ensures (forall r :: Searched(items, key, r) ==> Landing(|items|, r) == StartOf(items, key))
       <==> |Filter(items, Exactly(key))| <= 1
  {
    if |Filter(items, Exactly(key))| <= 1 {
      forall r | Searched(items, key, r) ensures Landing(|items|, r) == StartOf(items, key) {
        LandsOnSuccessor(items, key, r);
      }
    } else {
      var r := TieStopsShort(items, key);
    }
  }

  lemma TwoItemRing(hash: Hash, nodes: map<string, Node>)
    requires nodes == map["a" := Node("a", 1), "b" := Node("b", 1)] && forall s :: hash(s) == 7
    ensures IsRing(hash, nodes, [Item(7, "a"), Item(7, "b")])
  {
    var x, y := Item(7, "a"), Item(7, "b");
    assert Before("a", "b") && NameOrder(["a", "b"], nodes.Keys);
    assert ReplicasOf(hash, "a", 1) == [x] && ReplicasOf(hash, "b", 1) == [y];
    assert ["a", "b"][..1] == ["a"] && ["a"][..0] == [];
    assert AllReplicas(hash, nodes, ["a"]) == [x];
    assert AllReplicas(hash, nodes, ["a", "b"]) == [x, y];
    SortSmall(x, y);
  }

  lemma SortAppend(items: seq<Item>, x: Item)
    requires SortBy(items, RingIndex()) == items && forall i :: 0 <= i < |items| ==> items[i].ringIndex <= x.ringIndex
    ensures SortBy(items + [x], RingIndex()) == items + [x]
  {
    assert (items + [x])[..|items|] == items;
    InsertLast(items, x);
  }

  lemma SortSmall(x: Item, y: Item)
    requires x.ringIndex <= y.ringIndex
    ensures SortBy([x], RingIndex()) == [x] && SortBy([x, y], RingIndex()) == [x, y]
  {
    SortAppend([], x);
    assert [] + [x] == [x];
    SortAppend([x], y);
    assert [x] + [y] == [x, y];
  }

  /** An input with a tie: two nodes under a hash that is always 7, and a key with the same hash. */
  lemma TieAtAnInput(hash: Hash, nodes: map<string, Node>, items: seq<Item>)
    requires nodes == map["a" := Node("a", 1), "b" := Node("b", 1)] && forall s :: hash(s) == 7
    requires items == [Item(7, "a"), Item(7, "b")]
    ensures IsRing(hash, nodes, items)
    ensures Searched(items, 7, Ok(0)) && Landing(|items|, Ok(0)) == 1 && StartOf(items, 7) == 0
  {
    TwoItemRing(hash, nodes);
    FilterWhole(items, UpTo(7));
  }

  datatype RingEmpty = RingEmpty

  function FindIndex(search: Search, items: seq<Item>, key: nat): (r: Result<nat, RingEmpty>)
    ensures r.Err? <==> items == []
    ensures r.Ok? ==> r.value < |items|
  {
    if |items| == 0 then Err(RingEmpty) else Ok(Landing(|items|, search(items, key)))
  }

  function NextIndex(items: seq<Item>, index: nat): (r: nat)
    requires index < |items|
    ensures r < |items| && r == (index + 1) % |items|
  {
    if index + 1 >= |items| then 0 else index + 1
  }
}
