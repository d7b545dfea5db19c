/** Walks around a ring as sequences: first occurrences, and what deleting a name does to them. */
module RingWalk {
  import opened Counting

  /** First occurrences, in order. */
  function Dedup<T(==)>(s: seq<T>): seq<T> {
    if s == [] then []
    else
      var d := Dedup(s[..|s| - 1]);
      if s[|s| - 1] in d then d else d + [s[|s| - 1]]
  }

  function Without<T(==)>(s: seq<T>, x: T): seq<T> {
    if s == [] then []
    else if s[|s| - 1] == x then Without(s[..|s| - 1], x)
    else Without(s[..|s| - 1], x) + [s[|s| - 1]]
  }

  lemma {:induction false} DedupMembers<T>(s: seq<T>, x: T)
    ensures x in Dedup(s) <==> x in s
  {
    if s != [] {
      DedupMembers(s[..|s| - 1], x);
      assert s == s[..|s| - 1] + [s[|s| - 1]];
    }
  }

  lemma {:induction false} DedupDistinct<T>(s: seq<T>)
    ensures Distinct(Dedup(s))
  {
    if s != [] {
      DedupDistinct(s[..|s| - 1]);
    }
  }

  lemma {:induction false} DedupPrefix<T>(s: seq<T>, t: seq<T>)
    ensures Dedup(s) <= Dedup(s + t)
  {
    if t == [] {
      assert s + t == s;
    } else {
      DedupPrefix(s, t[..|t| - 1]);
      assert (s + t)[..|s + t| - 1] == s + t[..|t| - 1];
    }
  }

  lemma {:induction false} DistinctCard<T>(s: seq<T>)
    requires Distinct(s)
    ensures |Elements(s)| == |s|
  {
    if s != [] {
      var init, last := s[..|s| - 1], s[|s| - 1];
      DistinctCard(init);
      assert s == init + [last];
      assert Elements(s) == Elements(init) + {last};
    }
  }

  /** There are as many first occurrences as different elements. */
  lemma DedupCard<T(!new)>(s: seq<T>)
    ensures |Dedup(s)| == |Elements(s)|
  {
    DedupDistinct(s);
    DistinctCard(Dedup(s));
    forall x: T ensures x in Elements(Dedup(s)) <==> x in Elements(s) {
      DedupMembers(s, x);
    }
    assert Elements(Dedup(s)) == Elements(s);
  }

  lemma {:induction false} WithoutMembers<T>(s: seq<T>, x: T, y: T)
    ensures y in Without(s, x) <==> y in s && y != x
  {
    if s != [] {
      WithoutMembers(s[..|s| - 1], x, y);
      assert s == s[..|s| - 1] + [s[|s| - 1]];
    }
  }

  lemma {:induction false} WithoutConcat<T>(s: seq<T>, t: seq<T>, x: T)
    ensures Without(s + t, x) == Without(s, x) + Without(t, x)
  {
    if t == [] {
      assert s + t == s;
    } else {
      assert (s + t)[..|s + t| - 1] == s + t[..|t| - 1];
      WithoutConcat(s, t[..|t| - 1], x);
    }
  }

  /** Deleting a name and taking first occurrences commute. */
  lemma {:induction false} DedupWithout<T>(s: seq<T>, x: T)
    ensures Dedup(Without(s, x)) == Without(Dedup(s), x)
  {
    if s != [] {
      var init, last := s[..|s| - 1], s[|s| - 1];
      DedupWithout(init, x);
      WithoutMembers(Dedup(init), x, last);
      if last == x {
        assert Without(s, x) == Without(init, x);
        WithoutConcat(Dedup(init), [x], x);
        assert Without([x], x) == [];
      } else {
        assert Without(s, x)[..|Without(init, x)|] == Without(init, x);
        WithoutConcat(Dedup(init), [last], x);
        assert Without([last], x) == [last];
      }
    }
  }

  /** In a list without repetition, the first n names other than x are among the first n + 1. */
  lemma WithoutCut<T>(s: seq<T>, x: T, n: nat)
    requires Distinct(s) && n <= |Without(s, x)|
    ensures n <= |Without(s[..if n < |s| then n + 1 else |s|], x)|
    ensures Without(s, x)[..n] == Without(s[..if n < |s| then n + 1 else |s|], x)[..n]
  {
    var m := if n < |s| then n + 1 else |s|;
    assert s == s[..m] + s[m..];
    WithoutConcat(s[..m], s[m..], x);
    if n < |s| {
      WithoutLength(s[..m], x);
    } else {
      assert s[..m] == s;
    }
  }

  lemma {:induction false} WithoutLength<T>(s: seq<T>, x: T)
    requires Distinct(s)
    ensures |Without(s, x)| == |s| - if x in s then 1 else 0
  {
    if s != [] {
      var init, last := s[..|s| - 1], s[|s| - 1];
      WithoutLength(init, x);
      assert s == init + [last];
    }
  }
}
