/** Occurrence counts in sequences: the arithmetic form of "exactly once". */
module Counting {
  function Count<T(==)>(s: seq<T>, x: T): nat {
    if s == [] then 0
    else Count(s[..|s| - 1], x) + if s[|s| - 1] == x then 1 else 0
  }

  lemma CountAppend<T>(s: seq<T>, y: T, x: T)
    ensures Count(s + [y], x) == Count(s, x) + if y == x then 1 else 0
  {
    assert (s + [y])[..|s|] == s;
  }

  lemma {:induction false} CountConcat<T>(s: seq<T>, t: seq<T>, x: T)
    ensures Count(s + t, x) == Count(s, x) + Count(t, x)
  {
    if t == [] {
      assert s + t == s;
    } else {
      var init := t[..|t| - 1];
      CountConcat(s, init, x);
      CountAppend(s + init, t[|t| - 1], x);
      assert (s + init) + [t[|t| - 1]] == s + t;
    }
  }

  lemma {:induction false} CountMember<T>(s: seq<T>, x: T)
    ensures Count(s, x) > 0 <==> x in s
  {
    if s != [] {
      CountMember(s[..|s| - 1], x);
      assert s == s[..|s| - 1] + [s[|s| - 1]];
    }
  }

  ghost predicate Distinct<T>(s: seq<T>) {
    forall i, j :: 0 <= i < j < |s| ==> s[i] != s[j]
  }

  lemma {:induction false} CountDistinct<T>(s: seq<T>, x: T)
    requires Distinct(s)
    ensures Count(s, x) == if x in s then 1 else 0
  {
    if s != [] {
      var init := s[..|s| - 1];
      CountDistinct(init, x);
      assert s == init + [s[|s| - 1]];
    }
  }

  /** Two equal elements are counted twice. */
  lemma CountTwice<T>(s: seq<T>, i: nat, j: nat)
    requires i < j < |s| && s[i] == s[j]
    ensures Count(s, s[i]) >= 2
  {
    var a, b := s[..j], s[j..];
    assert s == a + b;
    CountConcat(a, b, s[i]);
    assert a[i] == s[i] && b[0] == s[i];
    CountMember(a, s[i]);
    CountMember(b, s[i]);
  }

  ghost function Elements<T>(s: seq<T>): set<T> {
    set x | x in s
  }

  lemma {:induction false} SubsetCard<T>(a: set<T>, b: set<T>)
    requires a <= b
    ensures |a| <= |b|
    decreases a
  {
    if x :| x in a {
      SubsetCard(a - {x}, b - {x});
    }
  }
}
