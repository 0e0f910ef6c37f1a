/** Filters, sums and stable sorts over sequences.

    The sources filter with comprehensions, total with `sum` and order with `sorted`. All three are
    defined here from the end of the sequence, so that extending a sequence by one element (an append
    to a log, one more loop iteration) unfolds each of them once. */
module Sorting {

  /** The elements of `s` that satisfy `keep`, in their order in `s`. */
  function Filter<T>(keep: T -> bool, s: seq<T>): (r: seq<T>)
    ensures forall x :: x in r ==> x in s && keep(x)
    ensures forall x :: x in s && keep(x) ==> x in r
    ensures |r| <= |s|
  {
    if s == [] then []
    else
      var front, last := s[..|s| - 1], s[|s| - 1];
      assert s == front + [last];
      if keep(last) then Filter(keep, front) + [last] else Filter(keep, front)
  }

  /** The sum of `measure` over the elements of `s`. */
  function Sum<T>(measure: T -> int, s: seq<T>): int {
    if s == [] then 0 else Sum(measure, s[..|s| - 1]) + measure(s[|s| - 1])
  }

  function Map<T, U>(f: T -> U, s: seq<T>): (r: seq<U>)
    ensures |r| == |s| && forall i :: 0 <= i < |s| ==> r[i] == f(s[i])
  {
    seq(|s|, i requires 0 <= i < |s| => f(s[i]))
  }

  lemma FilterNext<T>(keep: T -> bool, s: seq<T>, x: T)
    ensures Filter(keep, s + [x]) == if keep(x) then Filter(keep, s) + [x] else Filter(keep, s)
  {
    assert (s + [x])[..|s|] == s;
  }

  lemma {:induction false} FilterConcat<T>(keep: T -> bool, a: seq<T>, b: seq<T>)
    ensures Filter(keep, a + b) == Filter(keep, a) + Filter(keep, b)
  {
    if b == [] {
      assert a + b == a;
    } else {
      assert (a + b)[..|a + b| - 1] == a + b[..|b| - 1];
      FilterConcat(keep, a, b[..|b| - 1]);
    }
  }

  lemma {:induction false} FilterAgree<T>(p: T -> bool, q: T -> bool, s: seq<T>)
    requires forall x :: x in s ==> p(x) == q(x)
    ensures Filter(p, s) == Filter(q, s)
  {
    if s == [] {
    } else {
      FilterAgree(p, q, s[..|s| - 1]);
    }
  }

  lemma {:induction false} FilterAll<T>(p: T -> bool, s: seq<T>)
    requires forall x :: x in s ==> p(x)
    ensures Filter(p, s) == s
  {
    if s == [] {
    } else {
      FilterAll(p, s[..|s| - 1]);
      assert s == s[..|s| - 1] + [s[|s| - 1]];
    }
  }

  lemma {:induction false} FilterCommutes<T>(p: T -> bool, q: T -> bool, s: seq<T>)
    ensures Filter(p, Filter(q, s)) == Filter(q, Filter(p, s))
  {
    if s == [] {
    } else {
      var front, last := s[..|s| - 1], s[|s| - 1];
      FilterCommutes(p, q, front);
      if q(last) {
        FilterConcat(p, Filter(q, front), [last]);
      }
      if p(last) {
        FilterConcat(q, Filter(p, front), [last]);
      }
    }
  }

  lemma {:induction false} FilterMultiset<T(!new)>(keep: T -> bool, a: seq<T>, b: seq<T>)
    requires multiset(a) == multiset(b)
    ensures multiset(Filter(keep, a)) == multiset(Filter(keep, b))
  {
    var fa, fb := multiset(Filter(keep, a)), multiset(Filter(keep, b));
    forall x: T | true
      ensures fa[x] == fb[x]
    {
      FilterMultiplicity(keep, a, x);
      FilterMultiplicity(keep, b, x);
    }
    assert fa == fb;
  }

  lemma {:induction false} FilterMultiplicity<T>(keep: T -> bool, s: seq<T>, x: T)
    ensures multiset(Filter(keep, s))[x] == if keep(x) then multiset(s)[x] else 0
  {
    if s == [] {
    } else {
      FilterMultiplicity(keep, s[..|s| - 1], x);
      assert s == s[..|s| - 1] + [s[|s| - 1]];
    }
  }

  lemma {:induction false} FilterNone<T>(keep: T -> bool, s: seq<T>)
    requires forall x :: x in s ==> !keep(x)
    ensures Filter(keep, s) == []
  {
    if s == [] {
    } else {
      assert s[|s| - 1] in s;
      FilterNone(keep, s[..|s| - 1]);
    }
  }

  lemma SumExtend<T>(measure: T -> int, s: seq<T>, x: T)
    ensures Sum(measure, s + [x]) == Sum(measure, s) + measure(x)
  {
    assert (s + [x])[..|s|] == s;
  }

  lemma {:induction false} SumConcat<T>(measure: T -> int, a: seq<T>, b: seq<T>)
    ensures Sum(measure, a + b) == Sum(measure, a) + Sum(measure, b)
  {
    if b == [] {
      assert a + b == a;
    } else {
      assert (a + b)[..|a + b| - 1] == a + b[..|b| - 1];
      SumConcat(measure, a, b[..|b| - 1]);
    }
  }

  /** A sum does not depend on the order of its terms. */
  lemma {:induction false} SumPermutation<T>(measure: T -> int, a: seq<T>, b: seq<T>)
    requires multiset(a) == multiset(b)
    ensures Sum(measure, a) == Sum(measure, b)
    decreases |a|
  {
    assert |a| == |multiset(a)| == |multiset(b)| == |b|;
    if a == [] {
    } else {
      var front, last := a[..|a| - 1], a[|a| - 1];
      assert last in multiset(b);
      var i :| 0 <= i < |b| && b[i] == last;
      DropLast(a);
      DropOne(b, i);
      SumPermutation(measure, front, b[..i] + b[i + 1..]);
      SumAround(measure, b[..i], last, b[i + 1..]);
    }
  }

  lemma DropOne<T>(s: seq<T>, i: nat)
    requires i < |s|
    ensures s == s[..i] + [s[i]] + s[i + 1..]
    ensures multiset(s[..i] + s[i + 1..]) == multiset(s) - multiset{s[i]}
  {
    var pre, post := s[..i], s[i + 1..];
    assert s == pre + [s[i]] + post;
    assert multiset(s) == multiset(pre + post) + multiset{s[i]};
  }

  lemma SumAround<T>(measure: T -> int, pre: seq<T>, x: T, post: seq<T>)
    ensures Sum(measure, pre + [x] + post) == Sum(measure, pre + post) + measure(x)
  {
    SumConcat(measure, pre + [x], post);
    SumExtend(measure, pre, x);
    SumConcat(measure, pre, post);
  }

  lemma {:induction false} SumZero<T>(measure: T -> int, s: seq<T>)
    requires forall x :: x in s ==> measure(x) == 0
    ensures Sum(measure, s) == 0
  {
    if s == [] {
    } else {
      SumZero(measure, s[..|s| - 1]);
    }
  }

  /** Splitting a sum by a condition: what is kept plus what is dropped is the whole. */
  lemma {:induction false} SumSplit<T>(measure: T -> int, keep: T -> bool, drop: T -> bool, s: seq<T>)
    requires forall x :: x in s ==> drop(x) == !keep(x)
    ensures Sum(measure, s) == Sum(measure, Filter(keep, s)) + Sum(measure, Filter(drop, s))
  {
    if s == [] {
    } else {
      SumSplit(measure, keep, drop, s[..|s| - 1]);
    }
  }

  /** The comparison of a sort key: total and transitive, ties allowed. */
  ghost predicate TotalPreorder<T(!new)>(leq: (T, T) -> bool) {
    && (forall x, y :: leq(x, y) || leq(y, x))
    && (forall x, y, z :: leq(x, y) && leq(y, z) ==> leq(x, z))
  }

  ghost predicate IsSorted<T>(leq: (T, T) -> bool, s: seq<T>) {
    forall i, j :: 0 <= i < j < |s| ==> leq(s[i], s[j])
  }

  /** No two different elements of `s` share a sort key. */
  ghost predicate KeysDistinct<T>(leq: (T, T) -> bool, s: seq<T>) {
    forall x, y :: x in s && y in s && leq(x, y) && leq(y, x) ==> x == y
  }

  /** Put `x` behind every element that does not sort after it. */
  function Insert<T>(leq: (T, T) -> bool, x: T, s: seq<T>): (r: seq<T>)
    ensures multiset(r) == multiset(s) + multiset{x}
    ensures |r| == |s| + 1
  {
    if s == [] || leq(s[|s| - 1], x) then s + [x]
    else
      assert s == s[..|s| - 1] + [s[|s| - 1]];
      Insert(leq, x, s[..|s| - 1]) + [s[|s| - 1]]
  }

  /** Stable sort: elements with equal keys keep their order. */
  function Sort<T>(leq: (T, T) -> bool, s: seq<T>): (r: seq<T>)
    ensures multiset(r) == multiset(s)
    ensures |r| == |s|
  {
    if s == [] then []
    else
      assert s == s[..|s| - 1] + [s[|s| - 1]];
      Insert(leq, s[|s| - 1], Sort(leq, s[..|s| - 1]))
  }

  lemma InSort<T>(leq: (T, T) -> bool, s: seq<T>, x: T)
    ensures x in Sort(leq, s) <==> x in s
  {
    assert x in Sort(leq, s) <==> x in multiset(Sort(leq, s));
  }

  lemma {:induction false} InsertSorted<T(!new)>(leq: (T, T) -> bool, x: T, s: seq<T>)
    requires TotalPreorder(leq) && IsSorted(leq, s)
    ensures IsSorted(leq, Insert(leq, x, s))
  {
    if s != [] && !leq(s[|s| - 1], x) {
      var front, last := s[..|s| - 1], s[|s| - 1];
      InsertSorted(leq, x, front);
      var r := Insert(leq, x, front);
      forall i | 0 <= i < |r|
        ensures leq(r[i], last)
      {
        assert r[i] in multiset(r);
      }
    } else if s != [] {
      forall i | 0 <= i < |s|
        ensures leq(s[i], x)
      {
        assert i == |s| - 1 || leq(s[i], s[|s| - 1]);
      }
    }
  }

  lemma {:induction false} SortSorted<T(!new)>(leq: (T, T) -> bool, s: seq<T>)
    requires TotalPreorder(leq)
    ensures IsSorted(leq, Sort(leq, s))
  {
    if s == [] {
    } else {
      SortSorted(leq, s[..|s| - 1]);
      InsertSorted(leq, s[|s| - 1], Sort(leq, s[..|s| - 1]));
    }
  }

  lemma FilteredLast<T(!new)>(leq: (T, T) -> bool, keep: T -> bool, x: T, s: seq<T>)
    requires TotalPreorder(leq) && IsSorted(leq, s)
    requires s == [] || leq(s[|s| - 1], x)
    ensures var kept := Filter(keep, s); kept == [] || leq(kept[|kept| - 1], x)
  {
    var kept := Filter(keep, s);
    if kept != [] {
      SortedLast(leq, s, kept[|kept| - 1]);
    }
  }

  lemma InsertLast<T>(leq: (T, T) -> bool, x: T, s: seq<T>)
    requires s == [] || leq(s[|s| - 1], x)
    ensures Insert(leq, x, s) == s + [x]
  {
  }

  lemma InsertBefore<T>(leq: (T, T) -> bool, x: T, s: seq<T>, last: T)
    requires !leq(last, x)
    ensures Insert(leq, x, s + [last]) == Insert(leq, x, s) + [last]
  {
    assert (s + [last])[..|s|] == s;
  }

  lemma {:induction false} InsertFilter<T(!new)>(leq: (T, T) -> bool, keep: T -> bool, x: T, s: seq<T>)
    requires TotalPreorder(leq) && IsSorted(leq, s)
    ensures Filter(keep, Insert(leq, x, s))
         == if keep(x) then Insert(leq, x, Filter(keep, s)) else Filter(keep, s)
  {
    if s == [] || leq(s[|s| - 1], x) {
      InsertLast(leq, x, s);
      FilterNext(keep, s, x);
      FilteredLast(leq, keep, x, s);
      if keep(x) {
        InsertLast(leq, x, Filter(keep, s));
      }
    } else {
      var front, last := s[..|s| - 1], s[|s| - 1];
      assert s == front + [last];
      InsertFilter(leq, keep, x, front);
      InsertBefore(leq, x, front, last);
      FilterNext(keep, front, last);
      FilterNext(keep, Insert(leq, x, front), last);
      if keep(x) && keep(last) {
        InsertBefore(leq, x, Filter(keep, front), last);
      }
    }
  }

  /** Sorting commutes with filtering: ties keep their order, so nothing else could move. */
  lemma {:induction false} SortFilter<T(!new)>(leq: (T, T) -> bool, keep: T -> bool, s: seq<T>)
    requires TotalPreorder(leq)
    ensures Filter(keep, Sort(leq, s)) == Sort(leq, Filter(keep, s))
  {
    if s == [] {
    } else {
      var front, last := s[..|s| - 1], s[|s| - 1];
      SortFilter(leq, keep, front);
      SortSorted(leq, front);
      InsertFilter(leq, keep, last, Sort(leq, front));
      if keep(last) {
        var kept := Filter(keep, s);
        assert kept[..|kept| - 1] == Filter(keep, front);
      }
    }
  }

  lemma SortedLast<T>(leq: (T, T) -> bool, a: seq<T>, y: T)
    requires IsSorted(leq, a) && y in a
    ensures y == a[|a| - 1] || leq(y, a[|a| - 1])
  {
  }

  /** No two places of `s` carry the same key. */
  ghost predicate DistinctBy<T, K>(key: T -> K, s: seq<T>) {
    forall i, j :: 0 <= i < j < |s| ==> key(s[i]) != key(s[j])
  }

  lemma {:induction false} InsertDistinct<T, K>(leq: (T, T) -> bool, key: T -> K, x: T, s: seq<T>)
    requires DistinctBy(key, s) && forall y :: y in s ==> key(y) != key(x)
    ensures DistinctBy(key, Insert(leq, x, s))
  {
    if s == [] || leq(s[|s| - 1], x) {
      InsertLast(leq, x, s);
      DistinctNext(key, s, x);
    } else {
      var front, last := s[..|s| - 1], s[|s| - 1];
      assert s == front + [last] && last in s;
      assert forall y :: y in front ==> y in s;
      InsertDistinct(leq, key, x, front);
      var r := Insert(leq, x, front);
      forall y | y in r
        ensures key(y) != key(last)
      {
        assert y in multiset(r);
        assert y == x || y in front;
      }
      DistinctNext(key, r, last);
      InsertBefore(leq, x, front, last);
    }
  }

  lemma DistinctNext<T, K>(key: T -> K, s: seq<T>, x: T)
    requires DistinctBy(key, s) && forall y :: y in s ==> key(y) != key(x)
    ensures DistinctBy(key, s + [x])
  {
  }

  lemma {:induction false} FilterDistinct<T, K>(key: T -> K, keep: T -> bool, s: seq<T>)
    requires DistinctBy(key, s)
    ensures DistinctBy(key, Filter(keep, s))
  {
    if s == [] {
    } else {
      var front, last := s[..|s| - 1], s[|s| - 1];
      assert s == front + [last];
      FilterDistinct(key, keep, front);
      FilterNext(keep, front, last);
      if keep(last) {
        DistinctNext(key, Filter(keep, front), last);
      }
    }
  }

  lemma {:induction false} SortDistinct<T, K>(leq: (T, T) -> bool, key: T -> K, s: seq<T>)
    requires DistinctBy(key, s)
    ensures DistinctBy(key, Sort(leq, s))
  {
    if s == [] {
    } else {
      var front, last := s[..|s| - 1], s[|s| - 1];
      SortDistinct(leq, key, front);
      forall y | y in Sort(leq, front)
        ensures key(y) != key(last)
      {
        InSort(leq, front, y);
      }
      InsertDistinct(leq, key, last, Sort(leq, front));
    }
  }

  /** A filter keeps what is in order in order. */
  lemma {:induction false} FilterKeepsOrder<T>(before: (T, T) -> bool, keep: T -> bool, s: seq<T>)
    requires IsSorted(before, s)
    ensures IsSorted(before, Filter(keep, s))
  {
    if s == [] {
    } else {
      var front, last := s[..|s| - 1], s[|s| - 1];
      assert s == front + [last];
      FilterKeepsOrder(before, keep, front);
      FilterNext(keep, front, last);
      forall x | x in Filter(keep, front)
        ensures before(x, last)
      {
        var k :| 0 <= k < |front| && front[k] == x;
        assert before(s[k], s[|s| - 1]);
      }
    }
  }

  /** The places of `s` whose element satisfies `keep`. */
  ghost function Places<T>(keep: T -> bool, s: seq<T>): set<int> {
    set i | 0 <= i < |s| && keep(s[i])
  }

  lemma PlacesNext<T>(keep: T -> bool, s: seq<T>, x: T)
    ensures Places(keep, s + [x]) == if keep(x) then Places(keep, s) + {|s|} else Places(keep, s)
  {
    var t := s + [x];
    assert t[|s|] == x && forall i :: 0 <= i < |s| ==> t[i] == s[i];
  }

  /** A filter keeps one element per place that satisfies it. */
  lemma {:induction false} FilterCount<T>(keep: T -> bool, s: seq<T>)
    ensures |Filter(keep, s)| == |Places(keep, s)|
  {
    if s == [] {
      assert Places(keep, s) == {};
    } else {
      var front, last := s[..|s| - 1], s[|s| - 1];
      assert s == front + [last];
      FilterCount(keep, front);
      FilterNext(keep, front, last);
      PlacesNext(keep, front, last);
    }
  }

  /** The keys among `keys` that satisfy `q`. */
  ghost function Chosen<K>(q: K -> bool, keys: seq<K>): set<K> {
    set k | k in keys && q(k)
  }

  lemma ChosenNext<K>(q: K -> bool, keys: seq<K>, k: K)
    ensures Chosen(q, keys + [k]) == if q(k) then Chosen(q, keys) + {k} else Chosen(q, keys)
  {
    assert forall x :: x in keys + [k] <==> x in keys || x == k;
  }

  /** Counting the images of distinct keys counts the keys. */
  lemma CountOfKeys<T, K>(p: T -> bool, image: seq<T>, q: K -> bool, keys: seq<K>)
    requires |image| == |keys| && forall i :: 0 <= i < |keys| ==> p(image[i]) == q(keys[i])
    requires forall i, j :: 0 <= i < j < |keys| ==> keys[i] != keys[j]
    ensures |Filter(p, image)| == |Chosen(q, keys)|
  {
    FilterImage(p, q, image, keys);
    DistinctCount(q, keys);
  }

  lemma {:induction false} DistinctCount<K>(q: K -> bool, keys: seq<K>)
    requires forall i, j :: 0 <= i < j < |keys| ==> keys[i] != keys[j]
    ensures |Filter(q, keys)| == |Chosen(q, keys)|
  {
    if keys == [] {
      assert Chosen(q, keys) == {};
    } else {
      var front, last := keys[..|keys| - 1], keys[|keys| - 1];
      assert keys == front + [last] && last !in front;
      DistinctCount(q, front);
      FilterNext(q, front, last);
      ChosenNext(q, front, last);
    }
  }

  lemma CountAfterSort<T(!new)>(leq: (T, T) -> bool, p: T -> bool, s: seq<T>)
    ensures |Filter(p, Sort(leq, s))| == |Filter(p, s)|
  {
    FilterMultiset(p, Sort(leq, s), s);
    SameMembers(Filter(p, Sort(leq, s)), Filter(p, s));
  }

  lemma Inhabited<T>(s: set<T>) returns (x: T)
    requires s != {}
    ensures x in s
  {
    x :| x in s;
  }

  lemma DropLast<T>(s: seq<T>)
    requires s != []
    ensures s == s[..|s| - 1] + [s[|s| - 1]]
    ensures multiset(s[..|s| - 1]) == multiset(s) - multiset{s[|s| - 1]}
  {
  }

  /** Sorted arrangements of the same elements agree when no two elements share a key. */
  lemma {:induction false} SortedUnique<T>(leq: (T, T) -> bool, a: seq<T>, b: seq<T>)
    requires multiset(a) == multiset(b)
    requires IsSorted(leq, a) && IsSorted(leq, b) && KeysDistinct(leq, a)
    ensures a == b
    decreases |a|
  {
    assert |a| == |multiset(a)| == |multiset(b)| == |b|;
    if a == [] {
    } else {
      var x, y := a[|a| - 1], b[|b| - 1];
      assert x in multiset(b) && y in multiset(a);
      SortedLast(leq, a, y);
      SortedLast(leq, b, x);
      assert x == y;
      DropLast(a);
      DropLast(b);
      SortedUnique(leq, a[..|a| - 1], b[..|b| - 1]);
    }
  }

  lemma SortPermutation<T(!new)>(leq: (T, T) -> bool, a: seq<T>, b: seq<T>)
    requires TotalPreorder(leq) && multiset(a) == multiset(b) && KeysDistinct(leq, a)
    ensures Sort(leq, a) == Sort(leq, b)
  {
    SortSorted(leq, a);
    SortSorted(leq, b);
    forall x | x in Sort(leq, a)
      ensures x in a
    {
      InSort(leq, a, x);
    }
    SortedUnique(leq, Sort(leq, a), Sort(leq, b));
  }

  lemma {:induction false} SortOfSorted<T>(leq: (T, T) -> bool, s: seq<T>)
    requires IsSorted(leq, s)
    ensures Sort(leq, s) == s
  {
    if s == [] {
    } else {
      var front, last := s[..|s| - 1], s[|s| - 1];
      assert s == front + [last];
      SortOfSorted(leq, front);
      assert Sort(leq, s) == Insert(leq, last, front);
      InsertLast(leq, last, front);
    }
  }

  /** Filtering an image counts as filtering its source. */
  lemma {:induction false} FilterImage<T, U>(p: U -> bool, q: T -> bool, image: seq<U>, source: seq<T>)
    requires |image| == |source|
    requires forall i :: 0 <= i < |source| ==> p(image[i]) == q(source[i])
    ensures |Filter(p, image)| == |Filter(q, source)|
  {
    if source == [] {
    } else {
      FilterImage(p, q, image[..|image| - 1], source[..|source| - 1]);
    }
  }

  lemma {:induction false} Multiplicity<T>(s: seq<T>, x: T)
    requires forall i, j :: 0 <= i < j < |s| ==> s[i] != s[j]
    ensures multiset(s)[x] == if x in s then 1 else 0
  {
    if s == [] {
    } else {
      Multiplicity(s[..|s| - 1], x);
      assert s == s[..|s| - 1] + [s[|s| - 1]];
    }
  }

  /** Sequences without repetition and with the same members are rearrangements of each other. */
  lemma SameMembersSameMultiset<T(!new)>(a: seq<T>, b: seq<T>)
    requires forall i, j :: 0 <= i < j < |a| ==> a[i] != a[j]
    requires forall i, j :: 0 <= i < j < |b| ==> b[i] != b[j]
    requires forall x :: x in a <==> x in b
    ensures multiset(a) == multiset(b)
  {
    forall x: T | true
      ensures multiset(a)[x] == multiset(b)[x]
    {
      Multiplicity(a, x);
      Multiplicity(b, x);
    }
    assert multiset(a) == multiset(b);
  }

  lemma SameMembers<T(!new)>(a: seq<T>, b: seq<T>)
    requires multiset(a) == multiset(b)
    ensures forall x :: x in a <==> x in b
    ensures |a| == |b|
  {
    assert forall x :: x in a <==> x in multiset(a);
    assert forall x :: x in b <==> x in multiset(b);
    assert |a| == |multiset(a)| == |multiset(b)| == |b|;
  }

  lemma LastAppended<T>(longer: seq<T>, shorter: seq<T>)
    requires |longer| == |shorter| + 1
    requires forall i :: 0 <= i < |shorter| ==> longer[i] == shorter[i]
    ensures longer == shorter + [longer[|shorter|]]
  {
  }

  lemma {:induction false} InsertMap<T, U>(leq: (T, T) -> bool, leqU: (U, U) -> bool, f: T -> U, x: T, s: seq<T>)
    requires forall a, b :: a in s + [x] && b in s + [x] ==> leqU(f(a), f(b)) == leq(a, b)
    ensures Insert(leqU, f(x), Map(f, s)) == Map(f, Insert(leq, x, s))
  {
    if s == [] || leq(s[|s| - 1], x) {
      assert s != [] ==> s[|s| - 1] in s + [x];
      assert x in s + [x];
      assert Map(f, s + [x]) == Map(f, s) + [f(x)];
    } else {
      var front, last := s[..|s| - 1], s[|s| - 1];
      assert forall a :: a in front + [x] ==> a in s + [x];
      InsertMap(leq, leqU, f, x, front);
      assert last in s + [x] && x in s + [x];
      assert Map(f, s)[..|s| - 1] == Map(f, front);
      assert Map(f, Insert(leq, x, front) + [last]) == Map(f, Insert(leq, x, front)) + [f(last)];
    }
  }

  /** A function that keeps the sort keys commutes with sorting. */
  lemma {:induction false} SortMap<T, U>(leq: (T, T) -> bool, leqU: (U, U) -> bool, f: T -> U, s: seq<T>)
    requires forall a, b :: a in s && b in s ==> leqU(f(a), f(b)) == leq(a, b)
    ensures Sort(leqU, Map(f, s)) == Map(f, Sort(leq, s))
  {
    if s == [] {
      assert Map(f, s) == [];
    } else {
      var front, last := s[..|s| - 1], s[|s| - 1];
      SortMap(leq, leqU, f, front);
      assert Map(f, s)[..|s| - 1] == Map(f, front);
      forall a | a in Sort(leq, front) + [last]
        ensures a in s
      {
        InSort(leq, front, a);
      }
      InsertMap(leq, leqU, f, last, Sort(leq, front));
    }
  }

  lemma PlaceOfLast<T>(a: seq<T>, b: seq<T>) returns (i: nat)
    requires multiset(a) == multiset(b) && a != []
    ensures i < |b| && b[i] == a[|a| - 1] && multiset(b[..i] + b[i + 1..]) == multiset(a[..|a| - 1])
  {
    var last := a[|a| - 1];
    assert last in multiset(b);
    i :| 0 <= i < |b| && b[i] == last;
    DropLast(a);
    assert b == b[..i] + [last] + b[i + 1..];
    assert multiset(b) == multiset(b[..i] + b[i + 1..]) + multiset{last};
    assert multiset(b[..i] + b[i + 1..]) == multiset(b) - multiset{last};
  }

  /** Rearrangements have rearranged images. */
  lemma {:induction false} MapMultiset<T, U>(f: T -> U, a: seq<T>, b: seq<T>)
    requires multiset(a) == multiset(b)
    ensures multiset(Map(f, a)) == multiset(Map(f, b))
    decreases |a|
  {
    assert |a| == |multiset(a)| == |multiset(b)| == |b|;
    if a == [] {
    } else {
      var i := PlaceOfLast(a, b);
      MapMultiset(f, a[..|a| - 1], b[..i] + b[i + 1..]);
      MapAround(f, b, i);
      MapAround(f, a, |a| - 1);
      assert a[..|a| - 1] + a[|a|..] == a[..|a| - 1];
    }
  }

  lemma MapAround<T, U>(f: T -> U, s: seq<T>, i: nat)
    requires i < |s|
    ensures multiset(Map(f, s)) == multiset(Map(f, s[..i] + s[i + 1..])) + multiset{f(s[i])}
  {
    var pre, post := Map(f, s[..i]), Map(f, s[i + 1..]);
    assert Map(f, s) == pre + [f(s[i])] + post;
    assert Map(f, s[..i] + s[i + 1..]) == pre + post;
  }
}
