/** Selecting instances by key: ring overrides, and the choice among eligible instances. */
module Routing {
  import opened Options
  import opened Counting
  import opened RingWalk
  import opened RingItems
  import H = HashRing

  newtype u16 = x: int | 0 <= x < 0x1_0000

  /** The ring's answer for one node, from the items and the override table. */
  function Picked(search: Search, items: seq<Item>, key: nat, override: Option<string>): Option<string> {
    if override.Some? then override
    else if items == [] then None
    else Some(items[FindIndex(search, items, key).value].nodeName)
  }

  /** The ring's answer for several: the override first, then the others in ring order. */
  function PickedN(search: Search, items: seq<Item>, key: nat, override: Option<string>, wanted: nat): Option<seq<string>> {
    var found := if items == [] then None else Some(H.From(items, FindIndex(search, items, key).value, wanted));
    if override.None? then found
    else if found.None? then Some([override.value])
    else Some([override.value] + Without(found.value, override.value))
  }

  class Ring {
    const ring: H.HashRing
    var overrides: map<string, string>

    constructor (ring: H.HashRing, overrides: map<string, string>)
      ensures this.ring == ring && this.overrides == overrides
    {
      this.ring, this.overrides := ring, overrides;
    }

    function Override(key: string): Option<string>
      reads this`overrides
    {
      if key in overrides then Some(overrides[key]) else None
    }

    method Select(key: string) returns (r: Option<string>)
      requires ring.Valid()
      ensures r == Picked(ring.search, ring.items, ring.hash(key), Override(key))
    {
      if key in overrides {
        return Some(overrides[key]);
      }
      var found := ring.Find(key);
      if found.Ok? {
        H.FirstFrom(ring.items, FindIndex(ring.search, ring.items, ring.hash(key)).value);
        return Some(found.value);
      }
      r := None;
    }

    method SelectN(key: string, n: nat) returns (r: Option<seq<string>>)
      requires ring.Valid() && H.CanFind(ring.nodes, n)
      ensures r == PickedN(ring.search, ring.items, ring.hash(key), Override(key), H.Min(|ring.nodes|, n))
    {
      var found := ring.FindN(key, n);
      if key !in overrides {
        return if found.Ok? then Some(found.value) else None;
      }
      if found.Err? {
        return Some([overrides[key]]);
      }
      var nodes := Retain(found.value, overrides[key]);
      r := Some([overrides[key]] + nodes);
    }
  }

  /** Keeps every name but one. */
  method Retain(nodes: seq<string>, name: string) returns (kept: seq<string>)
    ensures kept == Without(nodes, name)
  {
    kept := [];
    for i := 0 to |nodes|
      invariant kept == Without(nodes[..i], name)
    {
      assert nodes[..i + 1][..i] == nodes[..i];
      if nodes[i] != name {
        kept := kept + [nodes[i]];
      }
    }
    assert nodes[..|nodes|] == nodes;
  }

  /** Selecting one instance is selecting the first of any number of them. */
  lemma SelectIsHead(search: Search, items: seq<Item>, key: nat, override: Option<string>, wanted: nat)
    requires wanted >= 1
    ensures Picked(search, items, key, override).Some? <==> PickedN(search, items, key, override, wanted).Some?
    ensures var several := PickedN(search, items, key, override, wanted);
      several.Some? ==> several.value != [] && Picked(search, items, key, override) == Some(several.value[0])
  {
    if items != [] {
      var start := FindIndex(search, items, key).value;
      H.TurnedAt(items, start, 0);
      H.FirstOfDedup(H.Turned(items, start));
    }
  }

  /** No instance is selected twice, and an override adds at most one to what was asked for. */
  lemma SelectNDistinct(search: Search, items: seq<Item>, key: nat, override: Option<string>, wanted: nat)
    ensures var several := PickedN(search, items, key, override, wanted);
      several.Some? ==> Distinct(several.value) && |several.value| <= wanted + if override.Some? then 1 else 0
  {
    if items != [] {
      var start := FindIndex(search, items, key).value;
      var found := H.From(items, start, wanted);
      DedupDistinct(H.Turned(items, start));
      if override.Some? {
        WithoutDistinct(found, override.value);
      }
    }
  }

  lemma {:induction false} WithoutDistinct<T>(s: seq<T>, x: T)
    requires Distinct(s)
    ensures Distinct(Without(s, x)) && x !in Without(s, x)
    ensures |Without(s, x)| <= |s|
  {
    if s != [] {
      WithoutDistinct(s[..|s| - 1], x);
      WithoutMembers(s[..|s| - 1], x, s[|s| - 1]);
    }
  }

  /** One name comes somewhere before another. */
  ghost predicate Before<T(!new)>(s: seq<T>, x: T, y: T) {
    exists i, j :: 0 <= i < j < |s| && s[i] == x && s[j] == y
  }

  lemma BeforeAppend<T(!new)>(s: seq<T>, last: T, x: T, y: T)
    ensures Before(s + [last], x, y) <==> Before(s, x, y) || (x in s && y == last)
  {
    var t := s + [last];
    if Before(t, x, y) {
      var i, j :| 0 <= i < j < |t| && t[i] == x && t[j] == y;
      assert s[i] == x;
      assert j < |s| ==> s[j] == y;
    }
    if Before(s, x, y) {
      var i, j :| 0 <= i < j < |s| && s[i] == x && s[j] == y;
      assert t[i] == x && t[j] == y;
    }
    if x in s && y == last {
      var i :| 0 <= i < |s| && s[i] == x;
      assert t[i] == x && t[|s|] == y;
    }
  }

  lemma {:induction false} WithoutKeepsOrder<T(!new)>(s: seq<T>, o: T, x: T, y: T)
    requires x != o && y != o
    ensures Before(Without(s, o), x, y) <==> Before(s, x, y)
  {
    if s != [] {
      var init, last := s[..|s| - 1], s[|s| - 1];
      assert s == init + [last];
      WithoutKeepsOrder(init, o, x, y);
      WithoutMembers(init, o, x);
      BeforeAppend(init, last, x, y);
      BeforeAppend(Without(init, o), last, x, y);
    }
  }

  /** An override comes first; after it come the other instances that the ring finds, all of them and in its order. */
  lemma OverrideFirst(search: Search, items: seq<Item>, key: nat, o: string, wanted: nat, x: string, y: string)
    requires items != []
    ensures var found := H.From(items, FindIndex(search, items, key).value, wanted);
      var several := PickedN(search, items, key, Some(o), wanted);
      && several.Some? && several.value != [] && several.value[0] == o
      && (x in several.value <==> x == o || x in found)
      && (x != o && y != o ==> (Before(several.value[1..], x, y) <==> Before(found, x, y)))
  {
    var found := H.From(items, FindIndex(search, items, key).value, wanted);
    var several := PickedN(search, items, key, Some(o), wanted).value;
    assert several[1..] == Without(found, o);
    assert several == [o] + Without(found, o);
    WithoutMembers(found, o, x);
    if x != o && y != o {
      WithoutKeepsOrder(found, o, x, y);
    }
  }

  /** Without an override the ring's own answer stands, and without a ring the override does. */
  lemma OneSourceOnly(search: Search, items: seq<Item>, key: nat, o: string, wanted: nat)
    ensures PickedN(search, [], key, Some(o), wanted) == Some([o]) && PickedN(search, [], key, None, wanted) == None
    ensures items != [] ==>
      PickedN(search, items, key, None, wanted) == Some(H.From(items, FindIndex(search, items, key).value, wanted))
  {
  }

  // ---------------------------------------------------------------- instances

  datatype Service = Service(id: string, draining: bool)

  datatype DiscoveryError = NoRingConfigured | NoServices

  type Instances = map<string, Service>

  predicate Eligible(instances: Instances, exclude: Option<string>, tolerateDraining: bool, node: string) {
    exclude != Some(node) && node in instances && (!instances[node].draining || tolerateDraining)
  }

  /**
    The eligible instances among some nodes, in order. The table of instances is read anew
    for every node: `tables[i]` is what it holds when the i-th is looked up.
  */
  function AllEligible(tables: seq<Instances>, exclude: Option<string>, tolerateDraining: bool, nodes: seq<string>): seq<Service>
    requires |tables| == |nodes|
  {
    if nodes == [] then []
    else
      var n := |nodes| - 1;
      var init := AllEligible(tables[..n], exclude, tolerateDraining, nodes[..n]);
      if Eligible(tables[n], exclude, tolerateDraining, nodes[n]) then init + [tables[n][nodes[n]]] else init
  }

  lemma {:induction false} EligiblePrefix(tables: seq<Instances>, exclude: Option<string>, tolerateDraining: bool,
                                         nodes: seq<string>, n: nat)
    requires n <= |nodes| == |tables|
    ensures AllEligible(tables[..n], exclude, tolerateDraining, nodes[..n])
         <= AllEligible(tables, exclude, tolerateDraining, nodes)
    decreases |nodes|
  {
    if n < |nodes| {
      var m := |nodes| - 1;
      assert nodes[..m][..n] == nodes[..n] && tables[..m][..n] == tables[..n];
      EligiblePrefix(tables[..m], exclude, tolerateDraining, nodes[..m], n);
    } else {
      assert nodes[..n] == nodes && tables[..n] == tables;
    }
  }

  /** The instance after `skip` eligible ones. */
  method SelectAmong(nodes: seq<string>, tables: seq<Instances>, exclude: Option<string>, tolerateDraining: bool, skip: u16)
      returns (r: Result<Service, DiscoveryError>)
    requires |tables| == |nodes|
    ensures var eligible := AllEligible(tables, exclude, tolerateDraining, nodes);
      r == if skip as int < |eligible| then Ok(eligible[skip as int]) else Err(NoServices)
  {
    var instanceIndex: u16 := 0;
    for i := 0 to |nodes|
      invariant instanceIndex <= skip
      invariant instanceIndex as int == |AllEligible(tables[..i], exclude, tolerateDraining, nodes[..i])|
    {
      assert nodes[..i + 1][..i] == nodes[..i] && tables[..i + 1][..i] == tables[..i];
      EligiblePrefix(tables, exclude, tolerateDraining, nodes, i + 1);
      var node := nodes[i];
      if exclude == Some(node) {
        continue;
      }
      if node in tables[i] {
        var service := tables[i][node];
        if service.draining && !tolerateDraining {
          continue;
        }
        if instanceIndex == skip {
          return Ok(service);
        } else {
          instanceIndex := instanceIndex + 1;
        }
      }
    }
    assert nodes[..|nodes|] == nodes && tables[..|nodes|] == tables;
    r := Err(NoServices);
  }

  /** A node that is known, not excluded, and not draining unless that is tolerated. */
  predicate IsOpen(instances: Instances, exclude: Option<string>, tolerateDraining: bool, node: string) {
    && node in instances
    && (exclude.Some? ==> exclude.value != node)
    && (instances[node].draining ==> tolerateDraining)
  }

  function Open(tables: seq<Instances>, exclude: Option<string>, tolerateDraining: bool, nodes: seq<string>, n: nat): set<int>
    requires n <= |nodes| == |tables|
  {
    set i | 0 <= i < n && OpenAt(tables, exclude, tolerateDraining, nodes, i)
  }

  predicate OpenAt(tables: seq<Instances>, exclude: Option<string>, tolerateDraining: bool, nodes: seq<string>, i: nat) {
    i < |nodes| && i < |tables| && IsOpen(tables[i], exclude, tolerateDraining, nodes[i])
  }

  lemma OpenStep(tables: seq<Instances>, exclude: Option<string>, tolerateDraining: bool, nodes: seq<string>, n: nat)
    requires n < |nodes| == |tables|
    ensures Open(tables, exclude, tolerateDraining, nodes, n + 1)
         == Open(tables, exclude, tolerateDraining, nodes, n)
            + if OpenAt(tables, exclude, tolerateDraining, nodes, n) then {n} else {}
    ensures n !in Open(tables, exclude, tolerateDraining, nodes, n)
  {
  }

  lemma EligibleStep(tables: seq<Instances>, exclude: Option<string>, tolerateDraining: bool, nodes: seq<string>, n: nat)
    requires n < |nodes| == |tables|
    ensures AllEligible(tables[..n + 1], exclude, tolerateDraining, nodes[..n + 1])
         == AllEligible(tables[..n], exclude, tolerateDraining, nodes[..n])
            + if IsOpen(tables[n], exclude, tolerateDraining, nodes[n]) then [tables[n][nodes[n]]] else []
  {
    assert nodes[..n + 1][..n] == nodes[..n] && tables[..n + 1][..n] == tables[..n];
  }

  lemma {:induction false} EligibleCount(tables: seq<Instances>, exclude: Option<string>, tolerateDraining: bool,
                                        nodes: seq<string>, n: nat)
    requires n <= |nodes| == |tables|
    ensures |AllEligible(tables[..n], exclude, tolerateDraining, nodes[..n])|
         == |Open(tables, exclude, tolerateDraining, nodes, n)|
  {
    if n > 0 {
      EligibleCount(tables, exclude, tolerateDraining, nodes, n - 1);
      OpenStep(tables, exclude, tolerateDraining, nodes, n - 1);
      EligibleStep(tables, exclude, tolerateDraining, nodes, n - 1);
    } else {
      assert Open(tables, exclude, tolerateDraining, nodes, 0) == {};
    }
  }

  /** There are as many eligible instances as open positions. */
  lemma AllOpenCounted(tables: seq<Instances>, exclude: Option<string>, tolerateDraining: bool, nodes: seq<string>)
    requires |tables| == |nodes|
    ensures |AllEligible(tables, exclude, tolerateDraining, nodes)| == |Open(tables, exclude, tolerateDraining, nodes, |nodes|)|
  {
    EligibleCount(tables, exclude, tolerateDraining, nodes, |nodes|);
    assert nodes[..|nodes|] == nodes && tables[..|nodes|] == tables;
  }

  /** The instance of an open position is the one selected by skipping as many as there are open positions before it. */
  lemma SelectsOpen(tables: seq<Instances>, exclude: Option<string>, tolerateDraining: bool, nodes: seq<string>, i: nat)
    requires i < |nodes| == |tables| && IsOpen(tables[i], exclude, tolerateDraining, nodes[i])
    ensures var eligible := AllEligible(tables, exclude, tolerateDraining, nodes);
      var skip := |Open(tables, exclude, tolerateDraining, nodes, i)|;
      skip < |eligible| && eligible[skip] == tables[i][nodes[i]]
  {
    EligibleCount(tables, exclude, tolerateDraining, nodes, i);
    EligibleStep(tables, exclude, tolerateDraining, nodes, i);
    EligiblePrefix(tables, exclude, tolerateDraining, nodes, i + 1);
  }

  class ServiceWatcher {
    const ring: Option<Ring>

    constructor (ring: Option<Ring>)
      ensures this.ring == ring
    {
      this.ring := ring;
    }

    /** What the ring offers for a key, if there is a ring and it offers anything. */
    function Offered(key: string, numReplicas: nat): Option<seq<string>>
      reads if ring.Some? then {ring.value, ring.value.ring} else {}
    {
      if ring.None? then None
      else
        var h := ring.value.ring;
        PickedN(h.search, h.items, h.hash(key), ring.value.Override(key), H.Min(|h.nodes|, numReplicas))
    }

    /** `tables` are the contents of the table of instances, one for every node that is looked up in it. */
    method SelectKey(key: string, numReplicas: nat, exclude: Option<string>, tolerateDraining: bool, skip: u16,
                     tables: seq<Instances>)
        returns (r: Result<Service, DiscoveryError>)
      requires ring.Some? ==> ring.value.ring.Valid() && H.CanFind(ring.value.ring.nodes, numReplicas)
      requires Offered(key, numReplicas).Some? ==> |tables| == |Offered(key, numReplicas).value|
      ensures r == Err(NoRingConfigured) <==> ring.None?
      ensures ring.Some? && Offered(key, numReplicas).None? ==> r == Err(NoServices)
      ensures Offered(key, numReplicas).Some? ==>
        var eligible := AllEligible(tables, exclude, tolerateDraining, Offered(key, numReplicas).value);
        r == if skip as int < |eligible| then Ok(eligible[skip as int]) else Err(NoServices)
    {
      if ring.None? {
        return Err(NoRingConfigured);
      }
      var nodes := ring.value.SelectN(key, numReplicas);
      if nodes.None? {
        return Err(NoServices);
      }
      r := SelectAmong(nodes.value, tables, exclude, tolerateDraining, skip);
    }
  }

  // ---------------------------------------------------------------- one snapshot

  /** A table that stays the same while it is read. */
  function Snapshot(instances: Instances, n: nat): seq<Instances> {
    seq(n, _ => instances)
  }

  ghost predicate AreAmong(services: seq<Service>, nodes: seq<string>) {
    forall i :: 0 <= i < |services| ==> services[i].id in nodes
  }

  ghost predicate Differ(services: seq<Service>) {
    forall i, j :: 0 <= i < j < |services| ==> services[i].id != services[j].id
  }

  lemma {:induction false} EligibleFacts(instances: Instances, exclude: Option<string>, tolerateDraining: bool, nodes: seq<string>)
    requires Distinct(nodes) && forall k :: k in instances ==> instances[k].id == k
    ensures AreAmong(AllEligible(Snapshot(instances, |nodes|), exclude, tolerateDraining, nodes), nodes)
    ensures Differ(AllEligible(Snapshot(instances, |nodes|), exclude, tolerateDraining, nodes))
  {
    if nodes != [] {
      var init, last := nodes[..|nodes| - 1], nodes[|nodes| - 1];
      EligibleFacts(instances, exclude, tolerateDraining, init);
      assert Snapshot(instances, |nodes|)[..|init|] == Snapshot(instances, |init|);
      assert nodes == init + [last];
    }
  }

  /** Over one snapshot, different skip counts never give the same instance. */
  lemma SkipsDiffer(search: Search, items: seq<Item>, key: nat, override: Option<string>, wanted: nat,
                    instances: Instances, exclude: Option<string>, tolerateDraining: bool, a: nat, b: nat)
    requires PickedN(search, items, key, override, wanted).Some? && a < b
    requires forall k :: k in instances ==> instances[k].id == k
    ensures var nodes := PickedN(search, items, key, override, wanted).value;
      var eligible := AllEligible(Snapshot(instances, |nodes|), exclude, tolerateDraining, nodes);
      b < |eligible| ==> eligible[a].id != eligible[b].id
  {
    SelectNDistinct(search, items, key, override, wanted);
    EligibleFacts(instances, exclude, tolerateDraining, PickedN(search, items, key, override, wanted).value);
  }
}
