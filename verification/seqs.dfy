/** The list operations the route handlers get from Prisma queries and
    from JavaScript arrays: `where` filters and `Array.filter`,
    `findFirst` and `list[0]`, `orderBy` on one key and `take`. */
module Seqs {
  import opened Options

  /** `s.filter(p)`: the elements of `s` satisfying `p`, in their order
      (FilterKeepsOrder), each as often as it occurs in `s` (FilterCounts). */
  function Filter<T(!new)>(s: seq<T>, p: T -> bool): (r: seq<T>)
    ensures |r| <= |s|
    ensures forall i :: 0 <= i < |r| ==> p(r[i])
    ensures forall x :: x in r <==> x in s && p(x)
  {
    if s == [] then []
    else if p(s[0]) then [s[0]] + Filter(s[1..], p)
    else Filter(s[1..], p)
  }

  /** Every element satisfying `p` is kept as many times as it occurs in
      `s`; no other element is kept. */
  lemma {:induction false} FilterCounts<T(!new)>(s: seq<T>, p: T -> bool)
    ensures forall x :: multiset(Filter(s, p))[x] == if p(x) then multiset(s)[x] else 0
  {
    if s != [] {
      FilterCounts(s[1..], p);
      assert s == [s[0]] + s[1..];
      assert multiset(s) == multiset{s[0]} + multiset(s[1..]);
      if p(s[0]) {
        assert multiset(Filter(s, p)) == multiset{s[0]} + multiset(Filter(s[1..], p));
      }
    }
  }

  /** Filtering keeps everything exactly when everything satisfies `p`. */
  lemma {:induction false} FilterKeepsAll<T(!new)>(s: seq<T>, p: T -> bool)
    ensures Filter(s, p) == s <==> forall i :: 0 <= i < |s| ==> p(s[i])
  {
    if s != [] {
      FilterKeepsAll(s[1..], p);
      if !p(s[0]) {
        assert |Filter(s, p)| < |s| by { assert |Filter(s[1..], p)| <= |s[1..]|; }
      }
    }
  }

  /** Filtering a concatenation filters each part. */
  lemma {:induction false} FilterAppend<T(!new)>(s: seq<T>, t: seq<T>, p: T -> bool)
    ensures Filter(s + t, p) == Filter(s, p) + Filter(t, p)
  {
    if s == [] {
      assert s + t == t;
    } else {
      var u := s + t;
      assert u[0] == s[0] && u[1..] == s[1..] + t;
      FilterAppend(s[1..], t, p);
      if p(s[0]) {
        calc {
          Filter(u, p);
          [s[0]] + Filter(s[1..] + t, p);
          [s[0]] + (Filter(s[1..], p) + Filter(t, p));
          ([s[0]] + Filter(s[1..], p)) + Filter(t, p);
        }
      }
    }
  }

  /** A one-element list is kept or dropped whole. */
  lemma FilterSingleton<T(!new)>(x: T, p: T -> bool)
    ensures Filter([x], p) == if p(x) then [x] else []
  {
    assert [x][1..] == [];
  }

  /** Filtering keeps order: whatever is kept of the elements before `x`
      comes before `x` (when kept), which comes before whatever is kept of
      the elements after it. */
  lemma FilterKeepsOrder<T(!new)>(before: seq<T>, x: T, after: seq<T>, p: T -> bool)
    ensures Filter(before + [x] + after, p) ==
      Filter(before, p) + (if p(x) then [x] else []) + Filter(after, p)
  {
    var tail := [x] + after;
    assert before + [x] + after == before + tail;
    FilterAppend(before, tail, p);
    FilterAppend([x], after, p);
    FilterSingleton(x, p);
  }

  /** The position of the first element satisfying `p`, if any: what a
      `findFirst` or `filtered[0]` picks. */
  function FirstIndex<T>(s: seq<T>, p: T -> bool): (r: Option<nat>)
    ensures r.Some? ==> r.value < |s| && p(s[r.value])
    ensures r.Some? ==> forall j :: 0 <= j < r.value ==> !p(s[j])
    ensures r.None? ==> forall j :: 0 <= j < |s| ==> !p(s[j])
  {
    if s == [] then None
    else if p(s[0]) then Some(0)
    else
      match FirstIndex(s[1..], p)
      case None => None
      case Some(i) => Some(i + 1)
  }

  /** The first element of `s.filter(p)` is the element at FirstIndex. */
  lemma {:induction false} FirstOfFilter<T(!new)>(s: seq<T>, p: T -> bool)
    ensures FirstIndex(s, p).None? <==> Filter(s, p) == []
    ensures FirstIndex(s, p).Some? ==> Filter(s, p)[0] == s[FirstIndex(s, p).value]
  {
    if s != [] && !p(s[0]) {
      FirstOfFilter(s[1..], p);
    }
  }

  ghost predicate SortedBy<T>(s: seq<T>, key: T -> int)
  {
    forall i, j :: 0 <= i < j < |s| ==> key(s[i]) <= key(s[j])
  }

  /** Insertion of `x` before the first element with a key not below its own. */
  function Insert<T>(x: T, s: seq<T>, key: T -> int): (r: seq<T>)
    ensures |r| == |s| + 1
  {
    if s == [] || key(x) <= key(s[0]) then [x] + s
    else [s[0]] + Insert(x, s[1..], key)
  }

  /** A lower bound of `x` and of every element bounds the result. */
  lemma {:induction false} InsertAbove<T>(x: T, s: seq<T>, key: T -> int, b: int)
    requires b <= key(x)
    requires forall i :: 0 <= i < |s| ==> b <= key(s[i])
    ensures forall i :: 0 <= i < |Insert(x, s, key)| ==> b <= key(Insert(x, s, key)[i])
  {
    if s != [] && key(x) > key(s[0]) {
      InsertAbove(x, s[1..], key, b);
    }
  }

  /** Inserting into a sorted list keeps it sorted. */
  lemma {:induction false} InsertSorted<T>(x: T, s: seq<T>, key: T -> int)
    requires SortedBy(s, key)
    ensures SortedBy(Insert(x, s, key), key)
  {
    if s != [] && key(x) > key(s[0]) {
      var rest := Insert(x, s[1..], key);
      InsertSorted(x, s[1..], key);
      InsertAbove(x, s[1..], key, key(s[0]));
      var r := [s[0]] + rest;
      forall i, j | 0 <= i < j < |r|
        ensures key(r[i]) <= key(r[j])
      {
        if i > 0 {
          assert r[i] == rest[i - 1] && r[j] == rest[j - 1];
        } else {
          assert r[j] == rest[j - 1];
        }
      }
    }
  }

  /** Insertion adds exactly `x`. */
  lemma {:induction false} InsertMultiset<T>(x: T, s: seq<T>, key: T -> int)
    ensures multiset(Insert(x, s, key)) == multiset(s) + multiset{x}
  {
    if s != [] && key(x) > key(s[0]) {
      InsertMultiset(x, s[1..], key);
      assert s == [s[0]] + s[1..];
    }
  }

  /** `orderBy: { key: 'asc' }`: a stable insertion sort. */
  function SortBy<T>(s: seq<T>, key: T -> int): (r: seq<T>)
    ensures |r| == |s|
    ensures SortedBy(r, key)
    ensures multiset(r) == multiset(s)
  {
    if s == [] then []
    else
      var rest := SortBy(s[1..], key);
      InsertSorted(s[0], rest, key);
      InsertMultiset(s[0], rest, key);
      assert s == [s[0]] + s[1..];
      Insert(s[0], rest, key)
  }

  /** `take: n` */
  function Take<T>(s: seq<T>, n: nat): (r: seq<T>)
    ensures |r| == if |s| < n then |s| else n
    ensures r == s[..|r|]
  {
    if |s| < n then s else s[..n]
  }

  /** The first `n` of a sorted list are some of the list's elements, still
      in order. */
  lemma TakeOfSorted<T>(s: seq<T>, key: T -> int, n: nat)
    ensures var r := Take(SortBy(s, key), n);
      && multiset(r) <= multiset(s)
      && forall i, j :: 0 <= i < j < |r| ==> key(r[i]) <= key(r[j])
  {
    var t := SortBy(s, key);
    var r := Take(t, n);
    assert t == r + t[|r|..];
    assert multiset(t) == multiset(r) + multiset(t[|r|..]);
    forall i, j | 0 <= i < j < |r|
      ensures key(r[i]) <= key(r[j])
    {
      assert r[i] == t[i] && r[j] == t[j];
    }
  }

  /** The first `n` of a sorted list are the `n` smallest: everything left
      out has a key no smaller than anything taken. */
  lemma TakeSortedIsSmallest<T(!new)>(s: seq<T>, key: T -> int, n: nat)
    ensures var r := Take(SortBy(s, key), n);
      forall x, y :: x in multiset(s) - multiset(r) && y in r ==> key(y) <= key(x)
  {
    var t := SortBy(s, key);
    var r := Take(t, n);
    var k := |r|;
    assert t == r + t[k..];
    assert multiset(s) - multiset(r) == multiset(t[k..]) by {
      calc {
        multiset(s);
        multiset(t);
        multiset(r + t[k..]);
        multiset(r) + multiset(t[k..]);
      }
    }
    forall x, y | x in multiset(s) - multiset(r) && y in r
      ensures key(y) <= key(x)
    {
      assert x in t[k..];
      var j :| 0 <= j < |t[k..]| && t[k..][j] == x;
      var i :| 0 <= i < |r| && r[i] == y;
      assert t[i] == y && t[k + j] == x;
    }
  }
}
