/** Filing the elements of a list under their keys: a dictionary of lists, keys in order of first occurrence. */
module Grouping {
  import opened Sorting

  type Groups<T> = map<int, seq<T>>

  function WithKey<T>(key: T -> int, k: int): T -> bool {
    (x: T) => key(x) == k
  }

  lemma KeyedBy<T>(key: T -> int, k: int, x: T)
    ensures WithKey(key, k)(x) <==> key(x) == k
  {
  }

  /** The keys in the order they first occur. */
  function KeysInOrder<T>(key: T -> int, s: seq<T>): (keys: seq<int>)
    ensures forall i, j :: 0 <= i < j < |keys| ==> keys[i] != keys[j]
  {
    if s == [] then []
    else
      var keys, k := KeysInOrder(key, s[..|s| - 1]), key(s[|s| - 1]);
      if k in keys then keys else keys + [k]
  }

  /** `groups` files every element of `s` under its key, in the order of `s`; `keys` lists the keys. */
  ghost predicate Grouped<T>(key: T -> int, s: seq<T>, keys: seq<int>, groups: Groups<T>) {
    && keys == KeysInOrder(key, s)
    && (forall k :: k in keys ==> k in groups)
    && (forall k :: k in groups ==> k in keys)
    && (forall x :: x in s ==> key(x) in groups)
    && (forall k :: k in groups ==> Filed(key, s, k, groups) && groups[k] != [])
  }

  ghost predicate Filed<T>(key: T -> int, s: seq<T>, k: int, groups: Groups<T>) {
    k in groups && groups[k] == Filter(WithKey(key, k), s)
  }

  /** File `x` under `k`. */
  function File<T>(groups: Groups<T>, k: int, x: T): Groups<T> {
    groups[k := (if k in groups then groups[k] else []) + [x]]
  }

  function Mention<T>(keys: seq<int>, groups: Groups<T>, k: int): seq<int> {
    if k in groups then keys else keys + [k]
  }

  lemma KeysNext<T>(key: T -> int, s: seq<T>, x: T)
    ensures KeysInOrder(key, s + [x])
         == if key(x) in KeysInOrder(key, s) then KeysInOrder(key, s) else KeysInOrder(key, s) + [key(x)]
  {
    assert (s + [x])[..|s|] == s;
  }

  /** A key is listed exactly when it occurs. */
  lemma {:induction false} KeysOccur<T>(key: T -> int, s: seq<T>, k: int)
    ensures k in KeysInOrder(key, s) <==> Filter(WithKey(key, k), s) != []
  {
    if s == [] {
    } else {
      KeysOccur(key, s[..|s| - 1], k);
    }
  }

  lemma FiledGroup<T>(key: T -> int, s: seq<T>, groups: Groups<T>, x: T, k: int)
    requires key(x) in groups && Filed(key, s, k, groups) && groups[k] != []
    ensures var next := File(groups, key(x), x); Filed(key, s + [x], k, next) && next[k] != []
  {
    KeyedBy(key, k, x);
    FilterNext(WithKey(key, k), s, x);
  }

  lemma FiledKnown<T>(key: T -> int, s: seq<T>, keys: seq<int>, groups: Groups<T>, x: T)
    requires Grouped(key, s, keys, groups) && key(x) in groups
    ensures Grouped(key, s + [x], keys, File(groups, key(x), x))
  {
    var next := File(groups, key(x), x);
    KeysNext(key, s, x);
    assert forall k :: k in next <==> k in groups;
    forall k | k in next
      ensures Filed(key, s + [x], k, next) && next[k] != []
    {
      FiledGroup(key, s, groups, x, k);
    }
  }

  lemma FiledNew<T>(key: T -> int, s: seq<T>, keys: seq<int>, groups: Groups<T>, x: T)
    requires Grouped(key, s, keys, groups) && key(x) !in groups
    ensures Grouped(key, s + [x], keys + [key(x)], File(groups, key(x), x))
  {
    KeysNext(key, s, x);
    FilterNone(WithKey(key, key(x)), s);
    FilterNext(WithKey(key, key(x)), s, x);
    forall k | k in groups
      ensures Filter(WithKey(key, k), s + [x]) == groups[k]
    {
      FilterNext(WithKey(key, k), s, x);
    }
  }

  lemma FiledNext<T>(key: T -> int, s: seq<T>, n: nat, keys: seq<int>, groups: Groups<T>)
    requires n < |s| && Grouped(key, s[..n], keys, groups)
    ensures Grouped(key, s[..n + 1], Mention(keys, groups, key(s[n])), File(groups, key(s[n]), s[n]))
  {
    assert s[..n + 1] == s[..n] + [s[n]];
    if key(s[n]) in groups {
      FiledKnown(key, s[..n], keys, groups, s[n]);
    } else {
      FiledNew(key, s[..n], keys, groups, s[n]);
    }
  }

  lemma KnownKey<T>(key: T -> int, s: seq<T>, keys: seq<int>, groups: Groups<T>, k: int) returns (x: T)
    requires Grouped(key, s, keys, groups) && k in keys
    ensures Filed(key, s, k, groups) && x in s && key(x) == k
  {
    assert k in groups;
    x := groups[k][0];
  }

  /** A property of every key filed is one of every key that occurs. */
  lemma KeysCover<T>(key: T -> int, s: seq<T>, keys: seq<int>, groups: Groups<T>, holds: int -> bool)
    requires Grouped(key, s, keys, groups)
    ensures forall j :: 0 <= j < |keys| ==> Filed(key, s, keys[j], groups)
    ensures (forall j :: 0 <= j < |keys| ==> holds(keys[j])) <==> (forall x :: x in s ==> holds(key(x)))
  {
    forall j | 0 <= j < |keys|
      ensures Filed(key, s, keys[j], groups) && exists x :: x in s && key(x) == keys[j]
    {
      var x := KnownKey(key, s, keys, groups, keys[j]);
    }
    forall x | x in s
      ensures exists j :: 0 <= j < |keys| && keys[j] == key(x)
    {
      var k := key(x);
      assert k in groups;
      assert k in keys;
    }
  }

  method GroupBy<T>(key: T -> int, s: seq<T>) returns (keys: seq<int>, groups: Groups<T>)
    ensures Grouped(key, s, keys, groups)
  {
    keys, groups := [], map[];
    for n := 0 to |s|
      invariant Grouped(key, s[..n], keys, groups)
    {
      FiledNext(key, s, n, keys, groups);
      keys := Mention(keys, groups, key(s[n]));
      groups := File(groups, key(s[n]), s[n]);
    }
    assert s[..|s|] == s;
  }
}
