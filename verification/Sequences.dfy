/** Duplicates and the stable sort that several components rely on. */
module Sequences {

  predicate Distinct<T(==)>(s: seq<T>) {
    forall i, j :: 0 <= i < j < |s| ==> s[i] != s[j]
  }

  lemma InConcat<T>(a: seq<T>, b: seq<T>)
    ensures forall x :: x in a + b <==> x in a || x in b
  {
  }

  lemma ConcatAssoc<T>(a: seq<T>, b: seq<T>, c: seq<T>)
    ensures a + b + c == a + (b + c)
  {
  }

  lemma {:induction false} OneEach<T>(s: seq<T>, x: T)
    requires Distinct(s)
    ensures multiset(s)[x] <= 1
  {
    if s != [] {
      var t, last := s[..|s| - 1], s[|s| - 1];
      OneEach(t, x);
      assert s == t + [last] && last !in t;
    }
  }

  lemma TwoCount<T>(s: seq<T>, i: nat, j: nat)
    requires i < j < |s| && s[i] == s[j]
    ensures multiset(s)[s[i]] >= 2
  {
    assert s == s[..i] + [s[i]] + s[i + 1..j] + [s[j]] + s[j + 1..];
  }

  /** A permutation has the same members, and no duplicates if the other has none. */
  lemma SameMembers<T>(a: seq<T>, b: seq<T>)
    requires multiset(a) == multiset(b)
    ensures |a| == |b| && forall x :: x in a <==> x in b
    ensures Distinct(a) ==> Distinct(b)
  {
    assert |multiset(a)| == |a| && |multiset(b)| == |b|;
    forall x
      ensures x in a <==> x in b
    {
      assert (x in a <==> x in multiset(a)) && (x in b <==> x in multiset(b));
    }
    if Distinct(a) {
      forall i, j | 0 <= i < j < |b|
        ensures b[i] != b[j]
      {
        OneEach(a, b[i]);
        if b[i] == b[j] {
          TwoCount(b, i, j);
        }
      }
    }
  }

  /** Behind every element whose key is not larger. */
  function InsertBy<T>(s: seq<T>, x: T, key: T -> int): seq<T> {
    if s == [] || key(s[|s| - 1]) <= key(x) then s + [x]
    else InsertBy(s[..|s| - 1], x, key) + [s[|s| - 1]]
  }

  /** Python's `sorted` with a key. */
  function SortBy<T>(s: seq<T>, key: T -> int): seq<T> {
    if s == [] then [] else InsertBy(SortBy(s[..|s| - 1], key), s[|s| - 1], key)
  }

  predicate OrderedBy<T>(s: seq<T>, key: T -> int) {
    forall i, j :: 0 <= i < j < |s| ==> key(s[i]) <= key(s[j])
  }

  /** The elements with this key, in their order. */
  function Group<T>(s: seq<T>, key: T -> int, k: int): seq<T> {
    if s == [] then []
    else Group(s[..|s| - 1], key, k) + if key(s[|s| - 1]) == k then [s[|s| - 1]] else []
  }

  lemma {:induction false} InsertAdds<T>(s: seq<T>, x: T, key: T -> int)
    ensures multiset(InsertBy(s, x, key)) == multiset(s) + multiset{x}
    ensures |InsertBy(s, x, key)| == |s| + 1
  {
    if s != [] && key(s[|s| - 1]) > key(x) {
      InsertAdds(s[..|s| - 1], x, key);
      assert s == s[..|s| - 1] + [s[|s| - 1]];
    }
  }

  lemma {:induction false} InsertOrders<T>(s: seq<T>, x: T, key: T -> int)
    requires OrderedBy(s, key)
    ensures OrderedBy(InsertBy(s, x, key), key)
  {
    if s != [] && key(s[|s| - 1]) > key(x) {
      var t, last := s[..|s| - 1], s[|s| - 1];
      InsertOrders(t, x, key);
      InsertAdds(t, x, key);
      var r := InsertBy(t, x, key);
      forall i | 0 <= i < |r|
        ensures key(r[i]) <= key(last)
      {
        assert r[i] in multiset(r);
        assert r[i] in t || r[i] == x;
      }
    }
  }

  lemma {:induction false} InsertKeepsGroups<T>(s: seq<T>, x: T, key: T -> int, k: int)
    requires OrderedBy(s, key)
    ensures Group(InsertBy(s, x, key), key, k) == Group(s, key, k) + if key(x) == k then [x] else []
  {
    var r := InsertBy(s, x, key);
    if s == [] || key(s[|s| - 1]) <= key(x) {
      assert r[..|r| - 1] == s;
    } else {
      var t, last := s[..|s| - 1], s[|s| - 1];
      assert r[..|r| - 1] == InsertBy(t, x, key);
      InsertKeepsGroups(t, x, key, k);
      if key(x) == k {
        assert key(last) != k;
      }
    }
  }

  /** The sort is a permutation, ordered, and keeps the order of equal keys. */
  lemma {:induction false} SortBySorts<T>(s: seq<T>, key: T -> int)
    ensures multiset(SortBy(s, key)) == multiset(s) && OrderedBy(SortBy(s, key), key)
    ensures forall k :: Group(SortBy(s, key), key, k) == Group(s, key, k)
  {
    if s != [] {
      var t, last := s[..|s| - 1], s[|s| - 1];
      SortBySorts(t, key);
      InsertAdds(SortBy(t, key), last, key);
      InsertOrders(SortBy(t, key), last, key);
      assert s == t + [last];
      forall k
        ensures Group(SortBy(s, key), key, k) == Group(s, key, k)
      {
        InsertKeepsGroups(SortBy(t, key), last, key, k);
      }
    }
  }
}
