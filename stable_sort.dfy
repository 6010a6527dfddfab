/** `Array.prototype.sort` with a numeric comparator `(a, b) => rank(a) - rank(b)`.
    ECMAScript requires the sort to be stable; the model is a stable insertion
    sort, and `StableSortUnique` shows that every stable sort gives the same
    result, so the choice of algorithm is not observable. */
module StableSort {

  /** Nondecreasing by `rank`. */
  ghost predicate SortedBy<T>(s: seq<T>, rank: T -> int) {
    forall i, j :: 0 <= i < j < |s| ==> rank(s[i]) <= rank(s[j])
  }

  /** The elements of `s` whose rank is `k`, in their order in `s`. */
  function WithRank<T>(s: seq<T>, rank: T -> int, k: int): seq<T> {
    if s == [] then []
    else WithRank(s[..|s| - 1], rank, k) + (if rank(s[|s| - 1]) == k then [s[|s| - 1]] else [])
  }

  /** Insert `x` into `t` after every element whose rank is not above `x`'s. */
  function Insert<T>(t: seq<T>, x: T, rank: T -> int): seq<T> {
    if t == [] || rank(t[|t| - 1]) <= rank(x) then t + [x]
    else Insert(t[..|t| - 1], x, rank) + [t[|t| - 1]]
  }

  /** Stable sort, ascending by `rank`. */
  function Sort<T>(s: seq<T>, rank: T -> int): seq<T> {
    if s == [] then [] else Insert(Sort(s[..|s| - 1], rank), s[|s| - 1], rank)
  }

  lemma {:induction false} InsertPermutes<T>(t: seq<T>, x: T, rank: T -> int)
    ensures multiset(Insert(t, x, rank)) == multiset(t) + multiset{x}
  {
    if !(t == [] || rank(t[|t| - 1]) <= rank(x)) {
      InsertPermutes(t[..|t| - 1], x, rank);
      assert t == t[..|t| - 1] + [t[|t| - 1]];
    }
  }

  lemma {:induction false} InsertSorted<T>(t: seq<T>, x: T, rank: T -> int)
    requires SortedBy(t, rank)
    ensures SortedBy(Insert(t, x, rank), rank)
  {
    if !(t == [] || rank(t[|t| - 1]) <= rank(x)) {
      var init, last := t[..|t| - 1], t[|t| - 1];
      InsertSorted(init, x, rank);
      InsertPermutes(init, x, rank);
      var u := Insert(init, x, rank);
      forall i | 0 <= i < |u| ensures rank(u[i]) <= rank(last) {
        assert u[i] in multiset(u);
        assert u[i] in multiset(init) || u[i] == x;
        if u[i] != x {
          var j :| 0 <= j < |init| && init[j] == u[i];
          assert t[j] == init[j];
        }
      }
    }
  }

  /** Inserting `x` only appends `x` to the elements of its own rank. */
  lemma {:induction false} InsertKeepsRankOrder<T>(t: seq<T>, x: T, rank: T -> int, k: int)
    ensures WithRank(Insert(t, x, rank), rank, k)
         == WithRank(t, rank, k) + (if rank(x) == k then [x] else [])
  {
    if t == [] || rank(t[|t| - 1]) <= rank(x) {
      assert (t + [x])[..|t|] == t;
    } else {
      var init, last := t[..|t| - 1], t[|t| - 1];
      InsertKeepsRankOrder(init, x, rank, k);
      var u := Insert(init, x, rank);
      var tail := if rank(last) == k then [last] else [];
      assert (u + [last])[..|u|] == u;
      assert WithRank(u + [last], rank, k) == WithRank(u, rank, k) + tail;
      assert WithRank(t, rank, k) == WithRank(init, rank, k) + tail;
    }
  }

  lemma {:induction false} SortPermutes<T>(s: seq<T>, rank: T -> int)
    ensures multiset(Sort(s, rank)) == multiset(s)
  {
    if s != [] {
      var init, last := s[..|s| - 1], s[|s| - 1];
      SortPermutes(init, rank);
      InsertPermutes(Sort(init, rank), last, rank);
      assert Sort(s, rank) == Insert(Sort(init, rank), last, rank);
      assert s == init + [last];
    }
  }

  lemma {:induction false} SortSorted<T>(s: seq<T>, rank: T -> int)
    ensures SortedBy(Sort(s, rank), rank)
  {
    if s != [] {
      SortSorted(s[..|s| - 1], rank);
      InsertSorted(Sort(s[..|s| - 1], rank), s[|s| - 1], rank);
    }
  }

  /** Stability: for every rank, the elements of that rank keep their relative order. */
  lemma {:induction false} SortStable<T>(s: seq<T>, rank: T -> int, k: int)
    ensures WithRank(Sort(s, rank), rank, k) == WithRank(s, rank, k)
  {
    if s != [] {
      SortStable(s[..|s| - 1], rank, k);
      InsertKeepsRankOrder(Sort(s[..|s| - 1], rank), s[|s| - 1], rank, k);
    }
  }

  lemma WithRankEmpty<T>(s: seq<T>, rank: T -> int, k: int)
    ensures WithRank(s, rank, k) == [] <==> forall i :: 0 <= i < |s| ==> rank(s[i]) != k
  {
    if s != [] {
      WithRankEmpty(s[..|s| - 1], rank, k);
      assert forall i :: 0 <= i < |s| - 1 ==> s[..|s| - 1][i] == s[i];
    }
  }

  /** A sorted sequence is determined by its elements of each rank: any two
      stable sorts of the same input agree. */
  lemma {:induction false} StableSortUnique<T>(a: seq<T>, b: seq<T>, rank: T -> int)
    requires SortedBy(a, rank) && SortedBy(b, rank)
    requires forall k :: WithRank(a, rank, k) == WithRank(b, rank, k)
    ensures a == b
    decreases |a| + |b|
  {
    if a == [] || b == [] {
      if a != [] {
        WithRankEmpty(b, rank, rank(a[0]));
        WithRankEmpty(a, rank, rank(a[0]));
      } else if b != [] {
        WithRankEmpty(a, rank, rank(b[0]));
        WithRankEmpty(b, rank, rank(b[0]));
      }
    } else {
      var la, lb := a[|a| - 1], b[|b| - 1];
      var ia, ib := a[..|a| - 1], b[..|b| - 1];
      if rank(la) < rank(lb) {
        WithRankEmpty(a, rank, rank(lb));
        WithRankEmpty(b, rank, rank(lb));
        assert false;
      } else if rank(lb) < rank(la) {
        WithRankEmpty(b, rank, rank(la));
        WithRankEmpty(a, rank, rank(la));
        assert false;
      } else {
        var m := rank(la);
        assert WithRank(a, rank, m) == WithRank(ia, rank, m) + [la];
        assert WithRank(b, rank, m) == WithRank(ib, rank, m) + [lb];
        var wa := WithRank(a, rank, m);
        assert wa == WithRank(b, rank, m);
        assert la == wa[|wa| - 1] == lb;
        forall k ensures WithRank(ia, rank, k) == WithRank(ib, rank, k) {
          var xa, xb := WithRank(a, rank, k), WithRank(b, rank, k);
          assert xa == xb;
          if k == m {
            assert WithRank(ia, rank, k) == xa[..|xa| - 1];
            assert WithRank(ib, rank, k) == xb[..|xb| - 1];
          } else {
            assert WithRank(ia, rank, k) == xa;
            assert WithRank(ib, rank, k) == xb;
          }
        }
        StableSortUnique(ia, ib, rank);
        assert a == ia + [la] && b == ib + [lb];
      }
    }
  }

  /** `Sort` is the stable sort: sorted, a permutation, each rank's order kept,
      and the only sequence with those properties. */
  lemma SortIsTheStableSort<T>(s: seq<T>, r: seq<T>, rank: T -> int)
    requires SortedBy(r, rank)
    requires forall k :: WithRank(r, rank, k) == WithRank(s, rank, k)
    ensures r == Sort(s, rank)
  {
    SortSorted(s, rank);
    forall k ensures WithRank(r, rank, k) == WithRank(Sort(s, rank), rank, k) {
      SortStable(s, rank, k);
    }
    StableSortUnique(r, Sort(s, rank), rank);
  }
}
