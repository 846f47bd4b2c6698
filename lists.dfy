/**
 * Sequence operations that JavaScript arrays provide: `filter`, and the stable `sort` with a
 * comparator (ECMAScript requires `Array.prototype.sort` to be stable), as an insertion sort.
 */
module Lists {

  /** `s.filter(p)`. */
  function Filter<T(!new)>(s: seq<T>, p: T -> bool): (r: seq<T>)
    ensures |r| <= |s|
  {
    if s == [] then []
    else
      var rest := Filter(s[1..], p);
      if p(s[0]) then [s[0]] + rest else rest
  }

  /** A filter keeps exactly the elements that pass the test, each as often as in the input. */
  lemma {:induction false} FilterMembers<T(!new)>(s: seq<T>, p: T -> bool)
    ensures forall x :: x in Filter(s, p) <==> x in s && p(x)
    ensures multiset(Filter(s, p)) <= multiset(s)
  {
    if s != [] {
      FilterMembers(s[1..], p);
      assert s == [s[0]] + s[1..];
    }
  }

  /** Filtering distributes over concatenation, so the kept elements keep their order. */
  lemma {:induction false} FilterAppend<T(!new)>(a: seq<T>, b: seq<T>, p: T -> bool)
    ensures Filter(a + b, p) == Filter(a, p) + Filter(b, p)
  {
    if a == [] {
      assert a + b == b;
    } else {
      assert (a + b)[1..] == a[1..] + b;
      FilterAppend(a[1..], b, p);
    }
  }

  /** Filtering with a condition every element meets changes nothing. */
  lemma {:induction false} FilterKeepsAll<T(!new)>(s: seq<T>, p: T -> bool)
    requires forall i :: 0 <= i < |s| ==> p(s[i])
    ensures Filter(s, p) == s
  {
    if s != [] {
      FilterKeepsAll(s[1..], p);
    }
  }

  /** Filtering twice with the same condition is filtering once. */
  lemma {:induction false} FilterIdempotent<T(!new)>(s: seq<T>, p: T -> bool)
    ensures Filter(Filter(s, p), p) == Filter(s, p)
  {
    var r := Filter(s, p);
    FilterMembers(s, p);
    forall i | 0 <= i < |r| ensures p(r[i]) {
      assert r[i] in r;
    }
    FilterKeepsAll(r, p);
  }

  /** Narrowing the input of a filter first can only shorten its output. */
  lemma {:induction false} FilterNarrowed<T(!new)>(s: seq<T>, p: T -> bool, q: T -> bool)
    ensures |Filter(Filter(s, p), q)| <= |Filter(s, q)|
  {
    if s != [] {
      FilterNarrowed(s[1..], p, q);
      var rest := Filter(s[1..], p);
      if p(s[0]) {
        assert Filter(s, p) == [s[0]] + rest;
        assert ([s[0]] + rest)[1..] == rest;
      }
    }
  }

  /** `le` is a total preorder: what a consistent sort comparator induces. */
  ghost predicate TotalPreorder<T(!new)>(le: (T, T) -> bool)
  {
    && (forall a, b :: le(a, b) || le(b, a))
    && (forall a, b, c :: le(a, b) && le(b, c) ==> le(a, c))
  }

  ghost predicate SortedBy<T>(s: seq<T>, le: (T, T) -> bool)
  {
    forall i, j :: 0 <= i < j < |s| ==> le(s[i], s[j])
  }

  /** Inserts `x` before the first element it may precede. */
  function Insert<T>(x: T, s: seq<T>, le: (T, T) -> bool): (r: seq<T>)
    ensures multiset(r) == multiset(s) + multiset{x}
  {
    if s == [] || le(x, s[0]) then [x] + s
    else
      assert s == [s[0]] + s[1..];
      [s[0]] + Insert(x, s[1..], le)
  }

  /** `s.slice().sort(cmp)` where `le(a, b)` means `cmp(a, b) <= 0`. */
  function SortBy<T>(s: seq<T>, le: (T, T) -> bool): (r: seq<T>)
    ensures multiset(r) == multiset(s)
  {
    if s == [] then []
    else
      assert s == [s[0]] + s[1..];
      Insert(s[0], SortBy(s[1..], le), le)
  }

  lemma {:induction false} InsertSorted<T(!new)>(x: T, s: seq<T>, le: (T, T) -> bool)
    requires TotalPreorder(le) && SortedBy(s, le)
    ensures SortedBy(Insert(x, s, le), le)
  {
    if s != [] && !le(x, s[0]) {
      InsertSorted(x, s[1..], le);
      var r := Insert(x, s, le);
      var tail := Insert(x, s[1..], le);
      assert r == [s[0]] + tail;
      assert le(s[0], x);
      forall k | 0 <= k < |tail| ensures le(s[0], tail[k]) {
        assert tail[k] in multiset(s[1..]) + multiset{x} by {
          assert tail[k] in multiset(tail);
        }
        if tail[k] != x || tail[k] in multiset(s[1..]) {
          if tail[k] in multiset(s[1..]) {
            var m :| 0 <= m < |s[1..]| && s[1..][m] == tail[k];
            assert s[m + 1] == tail[k];
          }
        }
      }
    }
  }

  /** The sort yields an ordering with respect to `le` of a permutation of its input. */
  lemma {:induction false} SortBySorted<T(!new)>(s: seq<T>, le: (T, T) -> bool)
    requires TotalPreorder(le)
    ensures SortedBy(SortBy(s, le), le)
    ensures multiset(SortBy(s, le)) == multiset(s)
  {
    if s != [] {
      SortBySorted(s[1..], le);
      InsertSorted(s[0], SortBy(s[1..], le), le);
    }
  }

  /** The elements that `le` cannot tell apart from `k`, in order. */
  function Ties<T(!new)>(s: seq<T>, k: T, le: (T, T) -> bool): seq<T>
  {
    Filter(s, y => le(y, k) && le(k, y))
  }

  lemma {:induction false} InsertStable<T(!new)>(x: T, s: seq<T>, k: T, le: (T, T) -> bool)
    requires TotalPreorder(le)
    ensures Ties(Insert(x, s, le), k, le) == Ties([x] + s, k, le)
  {
    if s != [] && !le(x, s[0]) {
      InsertStable(x, s[1..], k, le);
      var p := y => le(y, k) && le(k, y);
      var tail := Insert(x, s[1..], le);
      assert Insert(x, s, le) == [s[0]] + tail;
      assert ([s[0]] + tail)[1..] == tail;
      assert ([x] + s[1..])[1..] == s[1..];
      assert ([x] + s)[1..] == s;
      assert s == [s[0]] + s[1..];
      assert p(x) ==> !p(s[0]);
      if p(s[0]) {
        assert Filter([s[0]] + tail, p) == [s[0]] + Filter(tail, p);
        assert Filter([x] + s, p) == Filter(s, p) == [s[0]] + Filter(s[1..], p);
      } else {
        assert Filter([s[0]] + tail, p) == Filter(tail, p);
        assert Filter(s, p) == Filter(s[1..], p);
      }
    }
  }

  /** The sort is stable: elements that compare equal keep their original relative order. */
  lemma {:induction false} SortByStable<T(!new)>(s: seq<T>, k: T, le: (T, T) -> bool)
    requires TotalPreorder(le)
    ensures Ties(SortBy(s, le), k, le) == Ties(s, k, le)
  {
    if s != [] {
      SortByStable(s[1..], k, le);
      InsertStable(s[0], SortBy(s[1..], le), k, le);
      var p := y => le(y, k) && le(k, y);
      assert ([s[0]] + SortBy(s[1..], le))[1..] == SortBy(s[1..], le);
      assert s == [s[0]] + s[1..];
    }
  }

  /** A filter keeps the order of what it keeps. */
  lemma {:induction false} FilterSorted<T(!new)>(s: seq<T>, p: T -> bool, le: (T, T) -> bool)
    requires SortedBy(s, le)
    ensures SortedBy(Filter(s, p), le)
  {
    if s != [] {
      FilterSorted(s[1..], p, le);
      FilterMembers(s[1..], p);
      var rest := Filter(s[1..], p);
      if p(s[0]) {
        forall j | 0 <= j < |rest| ensures le(s[0], rest[j]) {
          assert rest[j] in s[1..];
          var m :| 0 <= m < |s[1..]| && s[1..][m] == rest[j];
          assert s[m + 1] == rest[j];
        }
        assert Filter(s, p) == [s[0]] + rest;
      }
    }
  }

  /** Sorting with two comparators that agree on the elements of the list gives the same result. */
  lemma {:induction false} SortByAgreeing<T>(s: seq<T>, le1: (T, T) -> bool, le2: (T, T) -> bool)
    requires forall a, b :: a in s && b in s ==> le1(a, b) == le2(a, b)
    ensures SortBy(s, le1) == SortBy(s, le2)
  {
    if s != [] {
      SortByAgreeing(s[1..], le1, le2);
      assert multiset(s) == multiset{s[0]} + multiset(s[1..]) by { assert s == [s[0]] + s[1..]; }
      InsertAgreeing(s[0], SortBy(s[1..], le1), le1, le2, s);
    }
  }

  lemma {:induction false} InsertAgreeing<T>(x: T, s: seq<T>, le1: (T, T) -> bool, le2: (T, T) -> bool, all: seq<T>)
    requires x in all && multiset(s) <= multiset(all)
    requires forall a, b :: a in all && b in all ==> le1(a, b) == le2(a, b)
    ensures Insert(x, s, le1) == Insert(x, s, le2)
  {
    if s != [] {
      assert s[0] in multiset(s);
      if le1(x, s[0]) == le2(x, s[0]) && !le1(x, s[0]) {
        assert multiset(s[1..]) <= multiset(s) by { assert s == [s[0]] + s[1..]; }
        InsertAgreeing(x, s[1..], le1, le2, all);
      }
    }
  }

  /** In a sorted sequence every element of a prefix may precede every element left after it. */
  lemma SortedPrefixFirst<T>(s: seq<T>, k: nat, le: (T, T) -> bool)
    requires SortedBy(s, le) && k <= |s|
    ensures multiset(s) - multiset(s[..k]) == multiset(s[k..])
    ensures forall v, w :: v in s[..k] && w in multiset(s[k..]) ==> le(v, w)
  {
    assert s == s[..k] + s[k..];
    forall v, w | v in s[..k] && w in multiset(s[k..])
      ensures le(v, w)
    {
      var i :| 0 <= i < k && s[..k][i] == v;
      var j :| 0 <= j < |s| - k && s[k..][j] == w;
      assert s[i] == v && s[k + j] == w;
    }
  }
}
