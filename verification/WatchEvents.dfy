/**
  The events of a recursive watcher and what a consumer does with them: `Apply` is the
  replica after one event, `Fold` after a list of them. A list of events is a delta from
  one value to another when it takes the replica there, each event doing some work.
*/
module WatchEvents {
  import opened Counting

  type Items = map<string, string>

  datatype Event =
    | FullSync(items: Items)
    | SyncOne(key: string, value: string)
    | DeleteOne(key: string, prevValue: string)

  function Apply(e: Event, v: Items): Items {
    match e
    case FullSync(items) => items
    case SyncOne(k, x) => v[k := x]
    case DeleteOne(k, _) => v - {k}
  }

  function Fold(es: seq<Event>, v: Items): Items {
    if es == [] then v else Apply(es[|es| - 1], Fold(es[..|es| - 1], v))
  }

  /** Applying the event changes the replica, and a deletion names the value it removes. */
  ghost predicate Changes(e: Event, v: Items) {
    && Apply(e, v) != v
    && (e.DeleteOne? ==> e.key in v && v[e.key] == e.prevValue)
  }

  ghost predicate Effective(es: seq<Event>, v: Items) {
    es == [] || (Effective(es[..|es| - 1], v) && Changes(es[|es| - 1], Fold(es[..|es| - 1], v)))
  }

  ghost predicate Incremental(es: seq<Event>) {
    forall e :: e in es ==> !e.FullSync?
  }

  /** The keys on which two values differ. */
  ghost predicate Differ(v: Items, w: Items, k: string) {
    (k in v) != (k in w) || (k in v && v[k] != w[k])
  }

  ghost function Diff(v: Items, w: Items): set<string> {
    set k | k in v.Keys + w.Keys && Differ(v, w, k)
  }

  /** One event per key that differs. */
  ghost predicate KeyByKey(es: seq<Event>, v: Items, w: Items) {
    Fold(es, v) == w && Effective(es, v) && Incremental(es) && |es| == |Diff(v, w)|
  }

  /** What every watch and every reset hands to the subscribers. */
  ghost predicate Delta(es: seq<Event>, v: Items, w: Items) {
    && Fold(es, v) == w
    && Effective(es, v)
    && (es == [] <==> v == w)
    && (KeyByKey(es, v, w) || es == [FullSync(w)])
  }

  lemma FoldAppend(es: seq<Event>, e: Event, v: Items)
    ensures Fold(es + [e], v) == Apply(e, Fold(es, v))
    ensures Effective(es + [e], v) <==> Effective(es, v) && Changes(e, Fold(es, v))
  {
    assert (es + [e])[..|es|] == es;
  }

  lemma SameWhenNoDiff(v: Items, w: Items)
    ensures Diff(v, w) == {} <==> v == w
  {
    if Diff(v, w) == {} {
      forall k | k in v.Keys + w.Keys ensures !Differ(v, w, k) {
        assert k !in Diff(v, w);
      }
      assert forall k :: k in v.Keys <==> k in w.Keys;
      assert v.Keys == w.Keys;
    }
  }

  lemma KeyByKeyIsDelta(es: seq<Event>, v: Items, w: Items)
    requires KeyByKey(es, v, w)
    ensures Delta(es, v, w)
  {
    SameWhenNoDiff(v, w);
  }

  /** Changing one key that has not changed yet adds exactly that key to the difference. */
  lemma DiffGrows(v: Items, w: Items, w': Items, k: string)
    requires !Differ(v, w, k) && Differ(v, w', k)
    requires forall j :: j != k ==> (Differ(v, w', j) <==> Differ(v, w, j))
    ensures |Diff(v, w')| == |Diff(v, w)| + 1
  {
    assert Diff(v, w') == Diff(v, w) + {k};
  }

  lemma ExtendKeyByKey(es: seq<Event>, v: Items, w: Items, e: Event)
    requires KeyByKey(es, v, w) && !e.FullSync? && Changes(e, w)
    requires !Differ(v, w, e.key)
    ensures KeyByKey(es + [e], v, Apply(e, w))
  {
    FoldAppend(es, e, v);
    assert Differ(v, Apply(e, w), e.key) by {
      OneKeyOnly(e, w);
    }
    DiffGrows(v, w, Apply(e, w), e.key);
  }

  lemma OneKeyOnly(e: Event, w: Items)
    requires !e.FullSync? && Changes(e, w)
    ensures Differ(w, Apply(e, w), e.key)
    ensures forall j :: j != e.key ==> !Differ(w, Apply(e, w), j)
  {
  }

  /** An incremental event moves a replica by at most one key. */
  lemma {:induction false} DiffLowerBound(es: seq<Event>, v: Items)
    requires Incremental(es)
    ensures |Diff(v, Fold(es, v))| <= |es|
  {
    if es == [] {
      SameWhenNoDiff(v, v);
    } else {
      var init, e := es[..|es| - 1], es[|es| - 1];
      assert forall x :: x in init ==> x in es;
      DiffLowerBound(init, v);
      var w, w' := Fold(init, v), Fold(es, v);
      assert Diff(v, w') <= Diff(v, w) + {e.key};
      SubsetCard(Diff(v, w'), Diff(v, w) + {e.key});
    }
  }

  /**
    Minimality: no list of events that reaches the same value is shorter, unless the
    delta is key by key and the other list jumps there with a full sync.
  */
  lemma DeltaIsShortest(es: seq<Event>, v: Items, w: Items, other: seq<Event>)
    requires Delta(es, v, w) && Fold(other, v) == w
    requires Incremental(other) || es == [FullSync(w)]
    ensures |es| <= |other|
  {
    if es == [FullSync(w)] {
      assert v != w;
    } else {
      DiffLowerBound(other, v);
    }
  }
}
