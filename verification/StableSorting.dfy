/** Sorting twice with a stable sort is sorting once by both keys. */
module StableSorting {
  import opened Sorting

  /** Sorts the same as `x`. */
  function LevelWith<T>(leq: (T, T) -> bool, x: T): T -> bool {
    (y: T) => leq(x, y) && leq(y, x)
  }

  /** First by `primary`, then, among its ties, by `secondary`. */
  function Lexicographic<T>(primary: (T, T) -> bool, secondary: (T, T) -> bool): (T, T) -> bool {
    (x: T, y: T) => primary(x, y) && (primary(y, x) ==> secondary(x, y))
  }

  lemma LexicographicTotal<T(!new)>(primary: (T, T) -> bool, secondary: (T, T) -> bool)
    requires TotalPreorder(primary) && TotalPreorder(secondary)
    ensures TotalPreorder(Lexicographic(primary, secondary))
  {
  }

  lemma FilterLast<T>(keep: T -> bool, s: seq<T>)
    requires s != [] && keep(s[|s| - 1])
    ensures Filter(keep, s) == Filter(keep, s[..|s| - 1]) + [s[|s| - 1]]
  {
  }

  lemma SameAppended<T>(a: seq<T>, x: T, b: seq<T>, y: T)
    requires a + [x] == b + [y]
    ensures a == b && x == y
  {
    assert a == (a + [x])[..|a|] && b == (b + [y])[..|b|];
    assert x == (a + [x])[|a|] && y == (b + [y])[|b|];
    assert |a + [x]| == |b + [y]|;
  }

  lemma LastsAgree<T(!new)>(leq: (T, T) -> bool, a: seq<T>, b: seq<T>)
    requires TotalPreorder(leq) && IsSorted(leq, a) && IsSorted(leq, b) && a != []
    requires forall x :: Filter(LevelWith(leq, x), a) == Filter(LevelWith(leq, x), b)
    ensures b != [] && a[|a| - 1] == b[|b| - 1]
  {
    var x := a[|a| - 1];
    FilterLast(LevelWith(leq, x), a);
    assert x in Filter(LevelWith(leq, x), b);
    var y := b[|b| - 1];
    FilterLast(LevelWith(leq, y), b);
    assert y in Filter(LevelWith(leq, y), a);
    SortedLast(leq, a, y);
    SortedLast(leq, b, x);
    FilterLast(LevelWith(leq, x), b);
    SameAppended(Filter(LevelWith(leq, x), a[..|a| - 1]), x, Filter(LevelWith(leq, x), b[..|b| - 1]), y);
  }

  /** Dropping the common last element leaves the levels the same. */
  lemma FrontLevel<T(!new)>(leq: (T, T) -> bool, a: seq<T>, b: seq<T>, z: T)
    requires a != [] && b != [] && a[|a| - 1] == b[|b| - 1]
    requires Filter(LevelWith(leq, z), a) == Filter(LevelWith(leq, z), b)
    ensures Filter(LevelWith(leq, z), a[..|a| - 1]) == Filter(LevelWith(leq, z), b[..|b| - 1])
  {
    var keep, x := LevelWith(leq, z), a[|a| - 1];
    if keep(x) {
      FilterLast(keep, a);
      FilterLast(keep, b);
      SameAppended(Filter(keep, a[..|a| - 1]), x, Filter(keep, b[..|b| - 1]), x);
    }
  }

  /** Sorted arrangements agree when, level by level, they list the same elements in the same order. */
  lemma {:induction false} SameLevelsSame<T(!new)>(leq: (T, T) -> bool, a: seq<T>, b: seq<T>)
    requires TotalPreorder(leq) && IsSorted(leq, a) && IsSorted(leq, b)
    requires forall x :: Filter(LevelWith(leq, x), a) == Filter(LevelWith(leq, x), b)
    ensures a == b
    decreases |a|
  {
    if a == [] {
      if b != [] {
        FilterLast(LevelWith(leq, b[|b| - 1]), b);
      }
    } else {
      LastsAgree(leq, a, b);
      forall z
        ensures Filter(LevelWith(leq, z), a[..|a| - 1]) == Filter(LevelWith(leq, z), b[..|b| - 1])
      {
        FrontLevel(leq, a, b, z);
      }
      SameLevelsSame(leq, a[..|a| - 1], b[..|b| - 1]);
      DropLast(a);
      DropLast(b);
    }
  }

  /** What is sorted after filtering was sorted before, among what was kept. */
  lemma {:induction false} KeptInOrder<T>(leq: (T, T) -> bool, keep: T -> bool, s: seq<T>, i: nat, j: nat)
    requires i < j < |s| && keep(s[i]) && keep(s[j]) && IsSorted(leq, Filter(keep, s))
    ensures leq(s[i], s[j])
  {
    var front, last := s[..|s| - 1], s[|s| - 1];
    var kept := Filter(keep, front);
    if j == |s| - 1 {
      FilterLast(keep, s);
      assert s[i] == front[i] && front[i] in kept;
      var k :| 0 <= k < |kept| && kept[k] == s[i];
      assert (kept + [last])[k] == s[i] && (kept + [last])[|kept|] == last;
    } else {
      if keep(last) {
        assert forall k :: 0 <= k < |kept| ==> kept[k] == (kept + [last])[k];
      }
      KeptInOrder(leq, keep, front, i, j);
    }
  }

  lemma SortLevel<T(!new)>(leq: (T, T) -> bool, s: seq<T>, keep: T -> bool)
    requires TotalPreorder(leq)
    requires forall x, y :: keep(x) && keep(y) ==> leq(x, y)
    ensures Filter(keep, Sort(leq, s)) == Filter(keep, s)
  {
    SortFilter(leq, keep, s);
    SortOfSorted(leq, Filter(keep, s));
  }

  lemma TwiceSortedLevels<T(!new)>(primary: (T, T) -> bool, secondary: (T, T) -> bool, s: seq<T>, x: T)
    requires TotalPreorder(primary) && TotalPreorder(secondary)
    ensures var lex := Lexicographic(primary, secondary);
            Filter(LevelWith(lex, x), Sort(primary, Sort(secondary, s))) == Filter(LevelWith(lex, x), Sort(lex, s))
  {
    var lex := Lexicographic(primary, secondary);
    LexicographicTotal(primary, secondary);
    SortLevel(lex, s, LevelWith(lex, x));
    SortLevel(secondary, s, LevelWith(lex, x));
    SortLevel(primary, Sort(secondary, s), LevelWith(lex, x));
  }

  lemma TwiceSortedSorted<T(!new)>(primary: (T, T) -> bool, secondary: (T, T) -> bool, s: seq<T>)
    requires TotalPreorder(primary) && TotalPreorder(secondary)
    ensures IsSorted(Lexicographic(primary, secondary), Sort(primary, Sort(secondary, s)))
  {
    var once := Sort(secondary, s);
    var twice := Sort(primary, once);
    SortSorted(secondary, s);
    SortSorted(primary, once);
    forall i, j | 0 <= i < j < |twice| && primary(twice[j], twice[i])
      ensures secondary(twice[i], twice[j])
    {
      var keep := LevelWith(primary, twice[i]);
      SortLevel(primary, once, keep);
      SortFilter(secondary, keep, s);
      SortSorted(secondary, Filter(keep, s));
      KeptInOrder(secondary, keep, twice, i, j);
    }
  }

  /** A stable sort by the secondary key followed by a stable sort by the primary key is a stable sort by both. */
  lemma SortTwice<T(!new)>(primary: (T, T) -> bool, secondary: (T, T) -> bool, s: seq<T>)
    requires TotalPreorder(primary) && TotalPreorder(secondary)
    ensures Sort(primary, Sort(secondary, s)) == Sort(Lexicographic(primary, secondary), s)
  {
    var lex := Lexicographic(primary, secondary);
    LexicographicTotal(primary, secondary);
    TwiceSortedSorted(primary, secondary, s);
    SortSorted(lex, s);
    forall x
      ensures Filter(LevelWith(lex, x), Sort(primary, Sort(secondary, s))) == Filter(LevelWith(lex, x), Sort(lex, s))
    {
      TwiceSortedLevels(primary, secondary, s, x);
    }
    SameLevelsSame(lex, Sort(primary, Sort(secondary, s)), Sort(lex, s));
  }
}
