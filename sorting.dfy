/**
 * Python's `sorted` and `list.sort` with a key: a stable sort under a
 * strict order `lt` ("comes strictly before").
 */
module Sorting {
  import opened OrderedDict

  /** `lt` is a strict weak order's "before": irreflexive and transitive. */
  ghost predicate StrictOrder<T(!new)>(lt: (T, T) -> bool) {
    && (forall a :: !lt(a, a))
    && (forall a, b, c :: lt(a, b) && lt(b, c) ==> lt(a, c))
  }

  /** No element is strictly before one that precedes it. */
  ghost predicate SortedBy<T>(lt: (T, T) -> bool, s: seq<T>) {
    forall i, j :: 0 <= i < j < |s| ==> !lt(s[j], s[i])
  }

  /** Insert `x` after every element it is not strictly before. */
  function Insert<T>(lt: (T, T) -> bool, x: T, s: seq<T>): (r: seq<T>)
    ensures multiset(r) == multiset(s) + multiset{x}
    ensures |r| == |s| + 1
  {
    if s == [] then [x]
    else if lt(x, s[0]) then [x] + s
    else
      assert s == [s[0]] + s[1..];
      [s[0]] + Insert(lt, x, s[1..])
  }

  /** Insertion sort; elements that tie keep their order, as in Python. */
  function SortBy<T>(lt: (T, T) -> bool, s: seq<T>): (r: seq<T>)
    ensures multiset(r) == multiset(s)
    ensures |r| == |s|
  {
    if s == [] then []
    else
      assert s == s[..|s| - 1] + [s[|s| - 1]];
      Insert(lt, s[|s| - 1], SortBy(lt, s[..|s| - 1]))
  }

  lemma {:induction false} InsertSorted<T(!new)>(lt: (T, T) -> bool, x: T, s: seq<T>)
    requires StrictOrder(lt) && SortedBy(lt, s)
    ensures SortedBy(lt, Insert(lt, x, s))
  {
    if s != [] && !lt(x, s[0]) {
      var t := s[1..];
      assert SortedBy(lt, t) by {
        forall i, j | 0 <= i < j < |t| ensures !lt(t[j], t[i]) {
          assert t[i] == s[i + 1] && t[j] == s[j + 1];
        }
      }
      InsertSorted(lt, x, t);
      var u := Insert(lt, x, t);
      var r := [s[0]] + u;
      forall j | 0 < j < |r| ensures !lt(r[j], s[0]) {
        assert r[j] == u[j - 1];
        assert u[j - 1] in multiset(u);
        assert r[j] in multiset(t) + multiset{x};
        if r[j] != x {
          assert r[j] in t;
          var k :| 0 <= k < |t| && t[k] == r[j];
          assert s[k + 1] == r[j];
        }
      }
      assert forall i, j :: 0 < i < j < |r| ==> r[i] == u[i - 1] && r[j] == u[j - 1];
    }
  }

  /** Under a strict order the sort really sorts. */
  lemma {:induction false} SortBySorted<T(!new)>(lt: (T, T) -> bool, s: seq<T>)
    requires StrictOrder(lt)
    ensures SortedBy(lt, SortBy(lt, s))
  {
    if s != [] {
      SortBySorted(lt, s[..|s| - 1]);
      InsertSorted(lt, s[|s| - 1], SortBy(lt, s[..|s| - 1]));
    }
  }

  /** A prefix of a sorted sequence is sorted. */
  lemma PrefixSorted<T>(lt: (T, T) -> bool, s: seq<T>, n: nat)
    requires SortedBy(lt, s) && n <= |s|
    ensures SortedBy(lt, s[..n])
  {
    assert forall i :: 0 <= i < n ==> s[..n][i] == s[i];
  }

  /** `sorted(s, key=...)[:k]`: the first `k` elements in sorted order. */
  function TopK<T>(lt: (T, T) -> bool, s: seq<T>, k: nat): (r: seq<T>)
    ensures |r| <= k && |r| <= |s|
  {
    var ranked := SortBy(lt, s);
    ranked[..if k < |ranked| then k else |ranked|]
  }

  lemma TwiceInMultiset<T>(s: seq<T>, i: nat, j: nat)
    requires i < j < |s| && s[i] == s[j]
    ensures multiset(s)[s[i]] >= 2
  {
    assert s == s[..i] + [s[i]] + s[i + 1..j] + [s[j]] + s[j + 1..];
  }

  /** In a duplicate-free sequence every element occurs once. */
  lemma {:induction false} DistinctOnce<T>(s: seq<T>, x: T)
    requires Distinct(s)
    ensures multiset(s)[x] <= 1
  {
    if s != [] {
      var pre := s[..|s| - 1];
      assert Distinct(pre);
      DistinctOnce(pre, x);
      assert s == pre + [s[|s| - 1]];
      if s[|s| - 1] == x {
        assert x !in pre;
      }
    }
  }

  /** The kept elements come from `s`, and once each when `s` has no repeats. */
  lemma TopKShape<T>(lt: (T, T) -> bool, s: seq<T>, k: nat)
    ensures forall i :: 0 <= i < |TopK(lt, s, k)| ==> TopK(lt, s, k)[i] in s
    ensures Distinct(s) ==> Distinct(TopK(lt, s, k))
  {
    var ranked := SortBy(lt, s);
    var r := TopK(lt, s, k);
    assert forall i :: 0 <= i < |r| ==> r[i] == ranked[i] && ranked[i] in multiset(ranked);
    if Distinct(s) {
      forall i, j | 0 <= i < j < |r| ensures r[i] != r[j] {
        if r[i] == r[j] {
          TwiceInMultiset(ranked, i, j);
          DistinctOnce(s, r[i]);
        }
      }
    }
  }

  /** The kept elements are in order, and no dropped one is strictly before a kept one. */
  lemma TopKOrder<T(!new)>(lt: (T, T) -> bool, s: seq<T>, k: nat)
    requires StrictOrder(lt)
    ensures SortedBy(lt, TopK(lt, s, k))
    ensures forall v, i :: v in s && v !in TopK(lt, s, k) && 0 <= i < |TopK(lt, s, k)| ==> !lt(v, TopK(lt, s, k)[i])
  {
    var ranked := SortBy(lt, s);
    var r := TopK(lt, s, k);
    SortBySorted(lt, s);
    PrefixSorted(lt, ranked, |r|);
    forall v, i | v in s && v !in r && 0 <= i < |r| ensures !lt(v, r[i]) {
      assert v in multiset(ranked);
      var j :| 0 <= j < |ranked| && ranked[j] == v;
      assert j >= |r|;
      assert r[i] == ranked[i];
    }
  }
}
