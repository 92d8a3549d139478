/** Ordering used when emitting virtual hosts: the stable sort of the
    rules of one host bucket (`sort.Stable` on the route list, whose
    comparator is abstracted as each rule's integer `order`), and the
    byte-wise string order by which virtual hosts are sorted. */
module RuleSort {
  import opened Gateway

  predicate SortedByOrder(s: seq<RouteRule>) {
    forall i, j :: 0 <= i < j < |s| ==> s[i].order <= s[j].order
  }

  /** The rules of `s` whose sort key is `k`, in their order in `s`. */
  function WithOrder(s: seq<RouteRule>, k: int): seq<RouteRule> {
    if |s| == 0 then []
    else (if s[0].order == k then [s[0]] else []) + WithOrder(s[1..], k)
  }

  lemma WithOrderCons(y: RouteRule, t: seq<RouteRule>, k: int)
    ensures WithOrder([y] + t, k) == (if y.order == k then [y] else []) + WithOrder(t, k)
  {
    assert ([y] + t)[1..] == t;
  }

  /** Puts `x` in front of every rule whose key is not smaller. */
  function Insert(x: RouteRule, s: seq<RouteRule>): (r: seq<RouteRule>)
    ensures multiset(r) == multiset(s) + multiset{x}
  {
    if |s| == 0 then [x]
    else if x.order <= s[0].order then [x] + s
    else
      assert s == [s[0]] + s[1..];
      [s[0]] + Insert(x, s[1..])
  }

  /** Inserting keeps a lower bound that `x` and every rule of `s` meet. */
  lemma {:induction false} InsertAbove(x: RouteRule, s: seq<RouteRule>, lo: int)
    requires lo <= x.order && forall i :: 0 <= i < |s| ==> lo <= s[i].order
    ensures forall i :: 0 <= i < |Insert(x, s)| ==> lo <= Insert(x, s)[i].order
  {
    if |s| > 0 && x.order > s[0].order {
      InsertAbove(x, s[1..], lo);
    }
  }

  lemma {:induction false} InsertSorted(x: RouteRule, s: seq<RouteRule>)
    requires SortedByOrder(s)
    ensures SortedByOrder(Insert(x, s))
  {
    if |s| > 0 && x.order > s[0].order {
      var tail := s[1..];
      assert SortedByOrder(tail) by {
        forall i, j | 0 <= i < j < |tail| ensures tail[i].order <= tail[j].order {
          assert tail[i] == s[i + 1] && tail[j] == s[j + 1];
        }
      }
      InsertSorted(x, tail);
      var t := Insert(x, tail);
      InsertAbove(x, tail, s[0].order);
      var r := [s[0]] + t;
      assert Insert(x, s) == r;
      forall i, j | 0 <= i < j < |r| ensures r[i].order <= r[j].order {
        if i > 0 {
          assert r[i] == t[i - 1] && r[j] == t[j - 1];
        } else {
          assert r[j] == t[j - 1];
        }
      }
    }
  }

  /** One step of `InsertStable`: a rule with a smaller key than `x`
      stays in front, and at most one of the two joins class `k`. */
  lemma InsertStableCons(x: RouteRule, y: RouteRule, t: seq<RouteRule>, u: seq<RouteRule>, k: int)
    requires y.order < x.order
    requires WithOrder(u, k) == (if x.order == k then [x] else []) + WithOrder(t, k)
    ensures WithOrder([y] + u, k) == (if x.order == k then [x] else []) + WithOrder([y] + t, k)
  {
    WithOrderCons(y, u, k);
    WithOrderCons(y, t, k);
  }

  lemma {:induction false} InsertStable(x: RouteRule, s: seq<RouteRule>, k: int)
    ensures WithOrder(Insert(x, s), k) == (if x.order == k then [x] else []) + WithOrder(s, k)
  {
    if |s| == 0 {
      WithOrderCons(x, [], k);
    } else if x.order <= s[0].order {
      WithOrderCons(x, s, k);
    } else {
      var tail := s[1..];
      assert Insert(x, s) == [s[0]] + Insert(x, tail);
      assert s == [s[0]] + tail;
      InsertStable(x, tail, k);
      InsertStableCons(x, s[0], tail, Insert(x, tail), k);
    }
  }

  /** Stable sort: the result is ordered by key, is a permutation of the
      input, and rules with equal keys keep their relative order. */
  function StableSort(s: seq<RouteRule>): (r: seq<RouteRule>)
    ensures SortedByOrder(r)
    ensures multiset(r) == multiset(s)
    ensures forall k :: WithOrder(r, k) == WithOrder(s, k)
  {
    if |s| == 0 then []
    else
      var t := StableSort(s[1..]);
      InsertSorted(s[0], t);
      assert s == [s[0]] + s[1..];
      forall k ensures WithOrder(Insert(s[0], t), k) == WithOrder(s, k) {
        InsertStable(s[0], t, k);
        WithOrderCons(s[0], s[1..], k);
      }
      Insert(s[0], t)
  }

  /** Stability pins the sort down: two sequences that are ordered by key
      and agree on every key class are equal. */
  lemma {:induction false} SortedUnique(a: seq<RouteRule>, b: seq<RouteRule>)
    requires SortedByOrder(a) && SortedByOrder(b)
    requires forall k :: WithOrder(a, k) == WithOrder(b, k)
    ensures a == b
    decreases |a| + |b|
  {
    if |a| == 0 || |b| == 0 {
      // a key present on one side only would give differing key classes
      WithOrderHead(a);
      WithOrderHead(b);
    } else if a[0].order < b[0].order {
      WithOrderBound(b, a[0].order);
      WithOrderHead(a);
    } else if b[0].order < a[0].order {
      WithOrderBound(a, b[0].order);
      WithOrderHead(b);
    } else {
      assert WithOrder(a, a[0].order)[0] == a[0];
      assert WithOrder(b, a[0].order)[0] == b[0];
      assert a[0] == b[0];
      assert a == [a[0]] + a[1..];
      assert b == [b[0]] + b[1..];
      forall k ensures WithOrder(a[1..], k) == WithOrder(b[1..], k) {
        var pre := if a[0].order == k then [a[0]] else [];
        assert WithOrder(a, k) == pre + WithOrder(a[1..], k);
        assert WithOrder(b, k) == pre + WithOrder(b[1..], k);
        assert (pre + WithOrder(a[1..], k))[|pre|..] == WithOrder(a[1..], k);
        assert (pre + WithOrder(b[1..], k))[|pre|..] == WithOrder(b[1..], k);
      }
      SortedUnique(a[1..], b[1..]);
      assert a == [a[0]] + a[1..];
      assert b == [b[0]] + b[1..];
    }
  }

  lemma WithOrderHead(s: seq<RouteRule>)
    ensures |s| > 0 ==> WithOrder(s, s[0].order) != []
  {
  }

  /** In a key-ordered sequence, no rule has a key below the first one's. */
  lemma {:induction false} WithOrderBound(s: seq<RouteRule>, k: int)
    requires SortedByOrder(s) && |s| > 0 && k < s[0].order
    ensures WithOrder(s, k) == []
    decreases |s|
  {
    if |s| > 1 {
      WithOrderBound(s[1..], k);
    }
  }

  /** Sorting an already sorted bucket changes nothing. */
  lemma StableSortIdempotent(s: seq<RouteRule>)
    requires SortedByOrder(s)
    ensures StableSort(s) == s
  {
    SortedUnique(StableSort(s), s);
  }

  // ---------------------------------------------------------------------
  // String order (Go's `<` on strings compares bytes of the UTF-8
  // encoding, which orders like the code points compared here).

  predicate StrLess(a: string, b: string) {
    if |a| == 0 then |b| > 0
    else |b| > 0 && (a[0] < b[0] || (a[0] == b[0] && StrLess(a[1..], b[1..])))
  }

  predicate StrLeq(a: string, b: string) {
    a == b || StrLess(a, b)
  }

  lemma {:induction false} StrLessIrreflexive(a: string)
    ensures !StrLess(a, a)
  {
    if |a| > 0 {
      StrLessIrreflexive(a[1..]);
    }
  }

  lemma {:induction false} StrLessTransitive(a: string, b: string, c: string)
    requires StrLess(a, b) && StrLess(b, c)
    ensures StrLess(a, c)
  {
    if |a| > 0 && a[0] == b[0] && b[0] == c[0] {
      StrLessTransitive(a[1..], b[1..], c[1..]);
    }
  }

  lemma {:induction false} StrLessTotal(a: string, b: string)
    requires a != b
    ensures StrLess(a, b) || StrLess(b, a)
  {
    if |a| > 0 && |b| > 0 && a[0] == b[0] {
      assert a == [a[0]] + a[1..];
      assert b == [b[0]] + b[1..];
      StrLessTotal(a[1..], b[1..]);
    }
  }

  lemma {:induction false} StrLessAsymmetric(a: string, b: string)
    requires StrLess(a, b)
    ensures !StrLess(b, a)
  {
    if |a| > 0 && |b| > 0 && a[0] == b[0] {
      StrLessAsymmetric(a[1..], b[1..]);
    }
  }

  lemma StrLeqTransitive(a: string, b: string, c: string)
    requires StrLeq(a, b) && StrLeq(b, c)
    ensures StrLeq(a, c)
  {
    if a != b && b != c {
      StrLessTransitive(a, b, c);
    }
  }
}
