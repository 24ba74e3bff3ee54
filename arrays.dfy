/**
 * The array built-ins the pages use: `filter`, and `sort` with a
 * comparator. The
 * engine's sort is stable, so a comparator that returns 0 keeps the input
 * order of the two elements. The model is an insertion sort driven by
 * `after(x, y)`, "the comparator puts x behind y" (it returns a positive
 * number for the pair x, y).
 */
module Arrays {

  /** `s.filter(p)`. */
  function Filter<T>(s: seq<T>, p: T -> bool): (r: seq<T>)
    ensures |r| <= |s|
    ensures forall x :: x in r ==> x in s && p(x)
    ensures forall x :: x in s && p(x) ==> x in r
    ensures multiset(r) <= multiset(s)
  {
    if s == [] then []
    else
      assert s == [s[0]] + s[1..];
      (if p(s[0]) then [s[0]] else []) + Filter(s[1..], p)
  }

  /** Filtering keeps every copy of an element it keeps and no copy of one it drops. */
  lemma {:induction false} FilterCount<T>(s: seq<T>, p: T -> bool, x: T)
    ensures multiset(Filter(s, p))[x] == if p(x) then multiset(s)[x] else 0
  {
    if s != [] {
      assert s == [s[0]] + s[1..];
      FilterCount(s[1..], p, x);
    }
  }

  /** Two tests that agree on every element keep the same elements. */
  lemma {:induction false} FilterSame<T>(s: seq<T>, p: T -> bool, q: T -> bool)
    requires forall x :: x in s ==> p(x) == q(x)
    ensures Filter(s, p) == Filter(s, q)
  {
    if s != [] {
      FilterSame(s[1..], p, q);
    }
  }

  lemma {:induction false} FilterAll<T>(s: seq<T>, p: T -> bool)
    requires forall x :: x in s ==> p(x)
    ensures Filter(s, p) == s
  {
    if s != [] {
      FilterAll(s[1..], p);
      assert s == [s[0]] + s[1..];
    }
  }

  lemma {:induction false} FilterNone<T>(s: seq<T>, p: T -> bool)
    requires forall x :: x in s ==> !p(x)
    ensures Filter(s, p) == []
  {
    if s != [] {
      FilterNone(s[1..], p);
    }
  }

  /** Three filters in a row keep what passes all three tests. */
  lemma {:induction false} FilterThree<T>(s: seq<T>, p: T -> bool, q: T -> bool, r: T -> bool, all: T -> bool)
    requires forall x :: all(x) == (p(x) && q(x) && r(x))
    ensures Filter(Filter(Filter(s, p), q), r) == Filter(s, all)
  {
    if s != [] {
      var x := s[0];
      FilterThree(s[1..], p, q, r, all);
      var head := if p(x) then [x] else [];
      FilterAppend(head, Filter(s[1..], p), q);
      var head2 := if p(x) && q(x) then [x] else [];
      FilterAppend(head2, Filter(Filter(s[1..], p), q), r);
    }
  }

  lemma {:induction false} FilterAppend<T>(a: seq<T>, b: seq<T>, p: T -> bool)
    ensures Filter(a + b, p) == Filter(a, p) + Filter(b, p)
  {
    if a != [] {
      assert (a + b)[1..] == a[1..] + b;
      FilterAppend(a[1..], b, p);
    } else {
      assert a + b == b;
    }
  }


  /** Puts `x` in front of the first element of `t` it does not have to follow. */
  function Insert<T>(x: T, t: seq<T>, after: (T, T) -> bool): (r: seq<T>)
    ensures multiset(r) == multiset(t) + multiset{x}
  {
    if t == [] || !after(x, t[0]) then [x] + t
    else assert t == [t[0]] + t[1..]; [t[0]] + Insert(x, t[1..], after)
  }

  function SortBy<T>(s: seq<T>, after: (T, T) -> bool): (r: seq<T>)
    ensures multiset(r) == multiset(s)
  {
    if s == [] then [] else assert s == [s[0]] + s[1..]; Insert(s[0], SortBy(s[1..], after), after)
  }

  /** The comparator orders the elements of `u` by `key`, largest first. */
  ghost predicate DescendingOn<T>(u: seq<T>, after: (T, T) -> bool, key: T -> real) {
    forall x, y :: x in u && y in u ==> (after(x, y) <==> key(y) > key(x))
  }

  ghost predicate SortedDesc<T>(s: seq<T>, key: T -> real) {
    forall i, j :: 0 <= i < j < |s| ==> key(s[i]) >= key(s[j])
  }

  /** The elements of `s` whose key is `k`, in their order in `s`. */
  ghost function WithKey<T>(s: seq<T>, key: T -> real, k: real): seq<T> {
    if s == [] then [] else (if key(s[0]) == k then [s[0]] else []) + WithKey(s[1..], key, k)
  }

  lemma {:induction false} InsertSorted<T>(x: T, t: seq<T>, after: (T, T) -> bool, key: T -> real, u: seq<T>)
    requires DescendingOn(u, after, key)
    requires x in u && forall y :: y in t ==> y in u
    requires SortedDesc(t, key)
    ensures SortedDesc(Insert(x, t, after), key)
  {
    if t == [] || !after(x, t[0]) {
      if t != [] {
        assert key(t[0]) <= key(x);
      }
    } else {
      assert key(t[0]) > key(x);
      InsertSorted(x, t[1..], after, key, u);
      var rest := Insert(x, t[1..], after);
      forall j | 0 <= j < |rest| ensures key(t[0]) >= key(rest[j]) {
        if rest[j] != x {
          assert rest[j] in multiset(rest);
          assert rest[j] in multiset(t[1..]);
          var m :| 0 <= m < |t| - 1 && t[1..][m] == rest[j];
          assert t[m + 1] == rest[j];
        }
      }
    }
  }

  /** The sort orders by the comparator's key, largest first. */
  lemma {:induction false} SortSorted<T>(s: seq<T>, after: (T, T) -> bool, key: T -> real)
    requires DescendingOn(s, after, key)
    ensures SortedDesc(SortBy(s, after), key)
  {
    if s != [] {
      SortSorted(s[1..], after, key);
      forall y | y in SortBy(s[1..], after) ensures y in s {
        assert y in multiset(SortBy(s[1..], after));
        assert y in multiset(s[1..]);
      }
      InsertSorted(s[0], SortBy(s[1..], after), after, key, s);
    }
  }

  lemma {:induction false} InsertWithKey<T>(x: T, t: seq<T>, after: (T, T) -> bool, key: T -> real, u: seq<T>, k: real)
    requires DescendingOn(u, after, key)
    requires x in u && forall y :: y in t ==> y in u
    ensures WithKey(Insert(x, t, after), key, k)
         == (if key(x) == k then [x] else []) + WithKey(t, key, k)
  {
    if t == [] || !after(x, t[0]) {
      WithKeyCons(x, t, key, k);
    } else {
      var t0, rest := t[0], t[1..];
      assert t == [t0] + rest;
      assert key(t0) > key(x) by {
        assert t0 in u;
      }
      assert forall y :: y in rest ==> y in u by {
        assert forall y :: y in rest ==> y in t;
      }
      InsertWithKey(x, rest, after, key, u, k);
      var ins := Insert(x, rest, after);
      assert Insert(x, t, after) == [t0] + ins;
      WithKeyCons(t0, ins, key, k);
      WithKeyCons(t0, rest, key, k);
      SwapDisjoint(if key(x) == k then [x] else [], if key(t0) == k then [t0] else [], WithKey(rest, key, k));
    }
  }

  lemma SwapDisjoint<T>(a: seq<T>, b: seq<T>, w: seq<T>)
    requires a == [] || b == []
    ensures b + (a + w) == a + (b + w)
  {
  }

  lemma WithKeyCons<T>(y: T, rest: seq<T>, key: T -> real, k: real)
    ensures WithKey([y] + rest, key, k) == (if key(y) == k then [y] else []) + WithKey(rest, key, k)
  {
    assert ([y] + rest)[1..] == rest;
  }

  /**
   * Stability: elements with equal keys keep their relative order. Together
   * with SortSorted and the permutation postcondition of SortBy this fixes
   * the result completely.
   */
  lemma {:induction false} SortStable<T>(s: seq<T>, after: (T, T) -> bool, key: T -> real, k: real)
    requires DescendingOn(s, after, key)
    ensures WithKey(SortBy(s, after), key, k) == WithKey(s, key, k)
  {
    if s != [] {
      assert DescendingOn(s[1..], after, key);
      SortStable(s[1..], after, key, k);
      forall y | y in SortBy(s[1..], after) ensures y in s {
        assert y in multiset(SortBy(s[1..], after));
        assert y in multiset(s[1..]);
      }
      InsertWithKey(s[0], SortBy(s[1..], after), after, key, s, k);
    }
  }

  /** A comparator that returns 0 for every pair leaves the order unchanged. */
  lemma {:induction false} SortKeepsOrder<T>(s: seq<T>, after: (T, T) -> bool)
    requires forall x, y :: x in s && y in s ==> !after(x, y)
    ensures SortBy(s, after) == s
  {
    if s != [] {
      SortKeepsOrder(s[1..], after);
    }
  }
}
