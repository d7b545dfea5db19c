/** The stable sort by a key, and the sequences it determines. */
module Sorting {
  import opened Counting

  ghost predicate Ascending<T>(s: seq<T>, key: T -> nat) {
    forall i, j :: 0 <= i < j < |s| ==> key(s[i]) <= key(s[j])
  }

  ghost predicate StrictlyAscending<T>(s: seq<T>, key: T -> nat) {
    forall i, j :: 0 <= i < j < |s| ==> key(s[i]) < key(s[j])
  }

  /** Insertion that keeps the order of equal keys. */
  function Insert<T>(s: seq<T>, x: T, key: T -> nat): seq<T> {
    if s == [] || key(s[|s| - 1]) <= key(x) then s + [x]
    else Insert(s[..|s| - 1], x, key) + [s[|s| - 1]]
  }

  function SortBy<T>(s: seq<T>, key: T -> nat): seq<T> {
    if s == [] then [] else Insert(SortBy(s[..|s| - 1], key), s[|s| - 1], key)
  }

  lemma {:induction false} InsertCount<T>(s: seq<T>, x: T, key: T -> nat, y: T)
    ensures Count(Insert(s, x, key), y) == Count(s, y) + if x == y then 1 else 0
  {
    if s == [] || key(s[|s| - 1]) <= key(x) {
      CountAppend(s, x, y);
    } else {
      InsertCount(s[..|s| - 1], x, key, y);
      CountAppend(Insert(s[..|s| - 1], x, key), s[|s| - 1], y);
    }
  }

  lemma {:induction false} InsertAscending<T>(s: seq<T>, x: T, key: T -> nat)
    requires Ascending(s, key)
    ensures Ascending(Insert(s, x, key), key)
    ensures forall y :: y in Insert(s, x, key) ==> y == x || y in s
  {
    if s != [] && key(s[|s| - 1]) > key(x) {
      var init, last := s[..|s| - 1], s[|s| - 1];
      InsertAscending(init, x, key);
      var t := Insert(init, x, key);
      forall i | 0 <= i < |t| ensures key(t[i]) <= key(last) {
        assert t[i] in t;
      }
    }
  }

  lemma {:induction false} SortAscends<T>(s: seq<T>, key: T -> nat)
    ensures Ascending(SortBy(s, key), key)
  {
    if s != [] {
      SortAscends(s[..|s| - 1], key);
      InsertAscending(SortBy(s[..|s| - 1], key), s[|s| - 1], key);
    }
  }

  lemma {:induction false} SortCount<T>(s: seq<T>, key: T -> nat, y: T)
    ensures Count(SortBy(s, key), y) == Count(s, y)
  {
    if s != [] {
      SortCount(s[..|s| - 1], key, y);
      InsertCount(SortBy(s[..|s| - 1], key), s[|s| - 1], key, y);
    }
  }

  /** With distinct keys there is one way to put the same elements in order. */
  lemma {:induction false} Determined<T(!new)>(a: seq<T>, b: seq<T>, key: T -> nat)
    requires StrictlyAscending(a, key) && Ascending(b, key) && forall x :: Count(a, x) == Count(b, x)
    ensures a == b
  {
    if a == [] {
      if b != [] {
        CountMember(b, b[0]);
        assert false;
      }
    } else {
      SameLast(a, b, key);
      var a', b' := a[..|a| - 1], b[..|b| - 1];
      forall x ensures Count(a', x) == Count(b', x) {
        assert Count(a, x) == Count(b, x);
      }
      Determined(a', b', key);
      assert a == a' + [a[|a| - 1]] && b == b' + [b[|b| - 1]];
    }
  }

  lemma SameLast<T(!new)>(a: seq<T>, b: seq<T>, key: T -> nat)
    requires StrictlyAscending(a, key) && Ascending(b, key) && a != [] && forall x :: Count(a, x) == Count(b, x)
    ensures b != [] && a[|a| - 1] == b[|b| - 1]
  {
    CountMember(a, a[|a| - 1]);
    CountMember(b, a[|a| - 1]);
    var x := b[|b| - 1];
    CountMember(b, x);
    CountMember(a, x);
    var i :| 0 <= i < |a| && a[i] == x;
    var j :| 0 <= j < |b| && b[j] == a[|a| - 1];
    assert key(b[j]) <= key(x);
  }
}
