/** Combining the ratios of a list with one operation: enough to treat a running product without multiplying. */
module Products {
  import opened Sorting

  function Combine<T, V>(op: (V, V) -> V, unit: V, ratio: T -> V, s: seq<T>): V {
    if s == [] then unit else op(Combine(op, unit, ratio, s[..|s| - 1]), ratio(s[|s| - 1]))
  }

  ghost predicate Associative<V(!new)>(op: (V, V) -> V) {
    forall a, b, c :: op(op(a, b), c) == op(a, op(b, c))
  }

  /** Two factors may be applied in either order. */
  ghost predicate Exchangeable<V(!new)>(op: (V, V) -> V) {
    forall a, b, c :: op(op(a, b), c) == op(op(a, c), b)
  }

  lemma CombineNext<T, V>(op: (V, V) -> V, unit: V, ratio: T -> V, s: seq<T>, x: T)
    ensures Combine(op, unit, ratio, s + [x]) == op(Combine(op, unit, ratio, s), ratio(x))
  {
  }

  lemma {:induction false} FilterImplied<T(!new)>(p: T -> bool, q: T -> bool, s: seq<T>)
    requires forall a :: p(a) ==> q(a)
    ensures Filter(p, Filter(q, s)) == Filter(p, s)
  {
    if s == [] {
    } else {
      var front, last := s[..|s| - 1], s[|s| - 1];
      FilterImplied(p, q, front);
      FilterNext(p, Filter(q, front), last);
    }
  }

  /** What is combined for the elements that `keep` selects. */
  function Kept<T, V>(op: (V, V) -> V, unit: V, ratio: T -> V, keep: T -> bool, s: seq<T>): V {
    Combine(op, unit, ratio, Filter(keep, s))
  }

  lemma KeptNext<T, V>(op: (V, V) -> V, unit: V, ratio: T -> V, keep: T -> bool, s: seq<T>, x: T)
    ensures Kept(op, unit, ratio, keep, s + [x])
         == if keep(x) then op(Kept(op, unit, ratio, keep, s), ratio(x)) else Kept(op, unit, ratio, keep, s)
  {
    FilterNext(keep, s, x);
    CombineNext(op, unit, ratio, Filter(keep, s), x);
  }

  /** The loop of a running product over the elements `keep` selects. */
  method Accumulate<T, V>(op: (V, V) -> V, unit: V, ratio: T -> V, keep: T -> bool, s: seq<T>) returns (r: V)
    ensures r == Kept(op, unit, ratio, keep, s)
  {
    r := unit;
    for n := 0 to |s|
      invariant r == Kept(op, unit, ratio, keep, s[..n])
    {
      assert s[..n + 1] == s[..n] + [s[n]];
      KeptNext(op, unit, ratio, keep, s[..n], s[n]);
      if keep(s[n]) {
        r := op(r, ratio(s[n]));
      }
    }
    assert s[..|s|] == s;
  }

  /** What is combined for a whole is combined from its two parts. */
  lemma {:induction false} KeptSplits<T(!new), V(!new)>(op: (V, V) -> V, unit: V, ratio: T -> V, whole: T -> bool,
                                                        p: T -> bool, q: T -> bool, s: seq<T>)
    requires Associative(op) && Exchangeable(op) && op(unit, unit) == unit
    requires forall a :: whole(a) <==> p(a) || q(a)
    requires forall a :: !(p(a) && q(a))
    ensures Kept(op, unit, ratio, whole, s) == op(Kept(op, unit, ratio, p, s), Kept(op, unit, ratio, q, s))
  {
    if s == [] {
    } else {
      var front, last := s[..|s| - 1], s[|s| - 1];
      assert s == front + [last];
      KeptSplits(op, unit, ratio, whole, p, q, front);
      KeptNext(op, unit, ratio, whole, front, last);
      KeptNext(op, unit, ratio, p, front, last);
      KeptNext(op, unit, ratio, q, front, last);
    }
  }

  /** An element may be combined last instead of where it stands. */
  lemma {:induction false} MovedLast<T, V(!new)>(op: (V, V) -> V, unit: V, ratio: T -> V, pre: seq<T>, x: T,
                                                post: seq<T>)
    requires Exchangeable(op)
    ensures Combine(op, unit, ratio, pre + [x] + post) == op(Combine(op, unit, ratio, pre + post), ratio(x))
  {
    if post == [] {
      assert pre + [x] + post == pre + [x] && pre + post == pre;
      CombineNext(op, unit, ratio, pre, x);
    } else {
      var front, last := post[..|post| - 1], post[|post| - 1];
      MovedLast(op, unit, ratio, pre, x, front);
      assert pre + [x] + post == pre + [x] + front + [last] && pre + post == pre + front + [last];
      CombineNext(op, unit, ratio, pre + [x] + front, last);
      CombineNext(op, unit, ratio, pre + front, last);
    }
  }

  lemma {:induction false} CombinePermutation<T, V(!new)>(op: (V, V) -> V, unit: V, ratio: T -> V, a: seq<T>, b: seq<T>)
    requires Exchangeable(op) && multiset(a) == multiset(b)
    ensures Combine(op, unit, ratio, a) == Combine(op, unit, ratio, b)
    decreases |a|
  {
    assert |a| == |multiset(a)| == |multiset(b)| == |b|;
    if a == [] {
    } else {
      var i := PlaceOfLast(a, b);
      CombinePermutation(op, unit, ratio, a[..|a| - 1], b[..i] + b[i + 1..]);
      MovedLast(op, unit, ratio, b[..i], b[i], b[i + 1..]);
      assert b == b[..i] + [b[i]] + b[i + 1..];
    }
  }
}
