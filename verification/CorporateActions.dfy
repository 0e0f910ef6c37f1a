/** The manifest of corporate actions: what its constructor accepts, and the canonical order it stores. */
module CorporateActions {
  import opened Wrappers
  import opened Sorting
  import opened Grouping
  import opened CorporateActionRecords

  datatype ManifestError = DuplicateAction(key: Key) | ConflictingChain(instrument: Instrument)

  /** `(instrument, ISO text, type)`, compared. */
  predicate ActionLeq(a: Action, b: Action) {
    a.instrument < b.instrument
    || (a.instrument == b.instrument
        && (a.at.text < b.at.text || (a.at.text == b.at.text && Rank(TypeOf(a)) <= Rank(TypeOf(b)))))
  }

  predicate DistinctKeys(actions: seq<Action>) {
    forall i, j :: 0 <= i < j < |actions| ==> KeyOf(actions[i]) != KeyOf(actions[j])
  }

  predicate IsChange(a: Action) {
    a.SymbolChange?
  }

  predicate InstantLeq(a: Action, b: Action) {
    a.at.instant <= b.at.instant
  }

  function InstrumentOf(a: Action): Instrument {
    a.instrument
  }

  function InstantOf(a: Action): int {
    a.at.instant
  }

  /** The symbol changes of `i`, by instant. */
  function ChangesOf(actions: seq<Action>, i: Instrument): seq<Action> {
    Sort(InstantLeq, Filter(WithKey(InstrumentOf, i), Filter(IsChange, actions)))
  }

  lemma InChanges(actions: seq<Action>, i: Instrument, a: Action)
    ensures a in ChangesOf(actions, i) <==> a in actions && a.SymbolChange? && a.instrument == i
  {
    KeyedBy(InstrumentOf, i, a);
    InSort(InstantLeq, Filter(WithKey(InstrumentOf, i), Filter(IsChange, actions)), a);
  }

  /** Changes one after the other, each starting from the symbol the one before it left. */
  predicate Linked(previous: Action, current: Action) {
    previous.SymbolChange? && current.SymbolChange? && previous.newSymbol == current.oldSymbol
  }

  predicate AdjacentLinked(changes: seq<Action>) {
    forall k :: 0 <= k < |changes| - 1 ==> Linked(changes[k], changes[k + 1])
  }

  /** `y` is the next change of its instrument after `x`. */
  ghost predicate Next(actions: seq<Action>, x: Action, y: Action) {
    && x in actions && y in actions && x.SymbolChange? && y.SymbolChange? && x.instrument == y.instrument
    && x.at.instant < y.at.instant
    && forall z :: z in actions && z.SymbolChange? && z.instrument == x.instrument ==>
         z.at.instant <= x.at.instant || y.at.instant <= z.at.instant
  }

  /** Every change starts from the symbol the one before it left. */
  ghost predicate Chained(actions: seq<Action>) {
    forall x, y :: Next(actions, x, y) ==> Linked(x, y)
  }

  predicate Rising(changes: seq<Action>) {
    forall j, k :: 0 <= j < k < |changes| ==> changes[j].at.instant < changes[k].at.instant
  }

  lemma OwnInstantsDistinct(actions: seq<Action>, i: Instrument)
    requires DistinctKeys(actions)
    ensures DistinctBy(InstantOf, Filter(WithKey(InstrumentOf, i), Filter(IsChange, actions)))
  {
    var own := Filter(WithKey(InstrumentOf, i), Filter(IsChange, actions));
    assert DistinctBy(KeyOf, actions);
    FilterDistinct(KeyOf, IsChange, actions);
    FilterDistinct(KeyOf, WithKey(InstrumentOf, i), Filter(IsChange, actions));
    forall j, k | 0 <= j < k < |own|
      ensures InstantOf(own[j]) != InstantOf(own[k])
    {
      OwnAction(actions, i, own[j]);
      OwnAction(actions, i, own[k]);
      assert KeyOf(own[j]) != KeyOf(own[k]);
    }
  }

  lemma OwnAction(actions: seq<Action>, i: Instrument, a: Action)
    requires a in Filter(WithKey(InstrumentOf, i), Filter(IsChange, actions))
    ensures a.SymbolChange? && a.instrument == i && KeyOf(a) == Key(i, InstantOf(a), Rename)
  {
    KeyedBy(InstrumentOf, i, a);
  }

  lemma ChangesRise(actions: seq<Action>, i: Instrument)
    requires DistinctKeys(actions)
    ensures Rising(ChangesOf(actions, i))
  {
    var own := Filter(WithKey(InstrumentOf, i), Filter(IsChange, actions));
    OwnInstantsDistinct(actions, i);
    SortDistinct(InstantLeq, InstantOf, own);
    SortSorted(InstantLeq, own);
    var t := ChangesOf(actions, i);
    forall j, k | 0 <= j < k < |t|
      ensures t[j].at.instant < t[k].at.instant
    {
      assert InstantLeq(t[j], t[k]) && InstantOf(t[j]) != InstantOf(t[k]);
    }
  }

  /** Adjacent changes of one instrument are exactly the pairs of a change and its next one. */
  lemma AdjacentIsNext(actions: seq<Action>, i: Instrument)
    requires DistinctKeys(actions)
    ensures AdjacentLinked(ChangesOf(actions, i))
       <==> forall x, y :: Next(actions, x, y) && x.instrument == i ==> Linked(x, y)
  {
    var t := ChangesOf(actions, i);
    ChangesRise(actions, i);
    forall a: Action | true
      ensures a in t <==> a in actions && a.SymbolChange? && a.instrument == i
    {
      InChanges(actions, i, a);
    }
    forall k | 0 <= k < |t| - 1
      ensures Next(actions, t[k], t[k + 1]) && t[k].instrument == i
    {
      assert t[k] in t && t[k + 1] in t;
      AdjacentIsNextIn(actions, t, k);
    }
    forall x, y | Next(actions, x, y) && x.instrument == i
      ensures exists k :: 0 <= k < |t| - 1 && x == t[k] && y == t[k + 1]
    {
      var k := NextIsAdjacent(actions, t, x, y);
    }
  }

  lemma NextIsAdjacent(actions: seq<Action>, t: seq<Action>, x: Action, y: Action) returns (k: nat)
    requires Rising(t) && Next(actions, x, y)
    requires forall a :: a in t <==> a in actions && a.SymbolChange? && a.instrument == x.instrument
    ensures k + 1 < |t| && x == t[k] && y == t[k + 1]
  {
    assert x in t && y in t;
    k :| 0 <= k < |t| && t[k] == x;
    var l :| 0 <= l < |t| && t[l] == y;
    assert k < l && t[k + 1] in t;
    assert l <= k + 1;
  }

  lemma AdjacentIsNextIn(actions: seq<Action>, t: seq<Action>, k: nat)
    requires Rising(t) && k + 1 < |t|
    requires forall a :: a in t <==> a in actions && a.SymbolChange? && a.instrument == t[k].instrument
    ensures Next(actions, t[k], t[k + 1])
  {
    forall z | z in actions && z.SymbolChange? && z.instrument == t[k].instrument
      ensures z.at.instant <= t[k].at.instant || t[k + 1].at.instant <= z.at.instant
    {
      var j :| 0 <= j < |t| && t[j] == z;
    }
    assert t[k] in t && t[k + 1] in t;
  }

  // ----- the constructor's checks -----

  ghost predicate Seen(actions: seq<Action>, seen: set<Key>) {
    forall x :: x in seen <==> exists k :: 0 <= k < |actions| && KeyOf(actions[k]) == x
  }

  lemma SeenNext(actions: seq<Action>, seen: set<Key>, n: nat)
    requires n < |actions| && Seen(actions[..n], seen)
    ensures Seen(actions[..n + 1], seen + {KeyOf(actions[n])})
    ensures KeyOf(actions[n]) !in seen && DistinctKeys(actions[..n]) ==> DistinctKeys(actions[..n + 1])
    ensures KeyOf(actions[n]) in seen ==> Duplicated(actions, KeyOf(actions[n]))
  {
    var shorter, longer := actions[..n], actions[..n + 1];
    assert longer == shorter + [actions[n]];
    forall x | x in seen + {KeyOf(actions[n])}
      ensures exists k :: 0 <= k < |longer| && KeyOf(longer[k]) == x
    {
      if x in seen {
        var k :| 0 <= k < |shorter| && KeyOf(shorter[k]) == x;
        assert KeyOf(longer[k]) == x;
      } else {
        assert KeyOf(longer[n]) == x;
      }
    }
    forall k | 0 <= k < n
      ensures KeyOf(actions[k]) in seen
    {
      assert KeyOf(shorter[k]) in seen;
    }
    if KeyOf(actions[n]) in seen {
      var k :| 0 <= k < |shorter| && KeyOf(shorter[k]) == KeyOf(actions[n]);
      assert KeyOf(actions[k]) == KeyOf(actions[n]);
    }
  }

  ghost predicate Duplicated(actions: seq<Action>, key: Key) {
    exists i, j :: 0 <= i < j < |actions| && KeyOf(actions[i]) == KeyOf(actions[j]) == key
  }

  method FindDuplicate(actions: seq<Action>) returns (key: Option<Key>)
    ensures key == None <==> DistinctKeys(actions)
    ensures key.Some? ==> Duplicated(actions, key.value)
  {
    var seen: set<Key> := {};
    for n := 0 to |actions|
      invariant DistinctKeys(actions[..n]) && Seen(actions[..n], seen)
    {
      SeenNext(actions, seen, n);
      if KeyOf(actions[n]) in seen {
        return Some(KeyOf(actions[n]));
      }
      seen := seen + {KeyOf(actions[n])};
    }
    assert actions[..|actions|] == actions;
    key := None;
  }

  /** Some change of `i` does not start from the symbol the one before it left. */
  ghost predicate Conflict(actions: seq<Action>, i: Instrument) {
    exists x, y :: Next(actions, x, y) && x.instrument == i && !Linked(x, y)
  }

  function ChainOf(actions: seq<Action>): Instrument -> bool {
    (i: Instrument) => AdjacentLinked(ChangesOf(actions, i))
  }

  method CheckChain(changes: seq<Action>) returns (ok: bool)
    requires forall a :: a in changes ==> a.SymbolChange?
    ensures ok <==> AdjacentLinked(Sort(InstantLeq, changes))
  {
    var ordered := Sort(InstantLeq, changes);
    var k := 1;
    while k < |ordered|
      invariant k >= 1 && forall j :: 0 <= j < k - 1 && j < |ordered| - 1 ==> Linked(ordered[j], ordered[j + 1])
    {
      InSort(InstantLeq, changes, ordered[k - 1]);
      InSort(InstantLeq, changes, ordered[k]);
      if ordered[k - 1].newSymbol != ordered[k].oldSymbol {
        assert !Linked(ordered[k - 1], ordered[k - 1 + 1]);
        return false;
      }
      k := k + 1;
    }
    ok := true;
  }

  method CheckChains(actions: seq<Action>, instruments: seq<Instrument>, groups: Groups<Action>)
    returns (wrong: Option<Instrument>)
    requires forall k :: 0 <= k < |instruments| ==>
               Filed(InstrumentOf, Filter(IsChange, actions), instruments[k], groups)
    ensures wrong == None <==> forall k :: 0 <= k < |instruments| ==> ChainOf(actions)(instruments[k])
    ensures wrong.Some? ==> !ChainOf(actions)(wrong.value)
  {
    for k := 0 to |instruments|
      invariant forall j :: 0 <= j < k ==> ChainOf(actions)(instruments[j])
    {
      var i := instruments[k];
      assert Filed(InstrumentOf, Filter(IsChange, actions), i, groups);
      var ok := CheckChain(groups[i]);
      assert ok <==> ChainOf(actions)(i);
      if !ok {
        return Some(i);
      }
    }
    wrong := None;
  }

  lemma ChainsDecide(actions: seq<Action>)
    requires DistinctKeys(actions)
    ensures Chained(actions) <==> forall a :: a in Filter(IsChange, actions) ==> ChainOf(actions)(InstrumentOf(a))
  {
    forall i: Instrument | true
      ensures ChainOf(actions)(i) <==> forall x, y :: Next(actions, x, y) && x.instrument == i ==> Linked(x, y)
    {
      AdjacentIsNext(actions, i);
    }
    if forall a :: a in Filter(IsChange, actions) ==> ChainOf(actions)(InstrumentOf(a)) {
      forall x, y | Next(actions, x, y)
        ensures Linked(x, y)
      {
        assert x in Filter(IsChange, actions);
        assert ChainOf(actions)(InstrumentOf(x));
      }
    }
  }

  lemma CanonicalSame(actions: seq<Action>)
    requires DistinctKeys(actions)
    ensures var stored := Sort(ActionLeq, actions);
            && DistinctKeys(stored) && (Chained(stored) <==> Chained(actions))
            && forall i :: Conflict(stored, i) <==> Conflict(actions, i)
  {
    var stored := Sort(ActionLeq, actions);
    forall a: Action | true
      ensures a in stored <==> a in actions
    {
      InSort(ActionLeq, actions, a);
    }
    assert forall x, y :: Next(stored, x, y) <==> Next(actions, x, y);
    assert DistinctBy(KeyOf, actions);
    SortDistinct(ActionLeq, KeyOf, actions);
    KeysDiffer(stored);
  }

  lemma KeysDiffer(actions: seq<Action>)
    requires DistinctBy(KeyOf, actions)
    ensures DistinctKeys(actions)
  {
    forall i, j | 0 <= i < j < |actions|
      ensures KeyOf(actions[i]) != KeyOf(actions[j])
    {
    }
  }

  lemma ActionOrderIsTotal()
    ensures TotalPreorder(ActionLeq)
  {
  }

  /** Manifests built from the same actions in any order store the same list, provided the text of a moment tells
      its instant. */
  lemma CanonicalIgnoresOrder(a: seq<Action>, b: seq<Action>)
    requires multiset(a) == multiset(b) && DistinctKeys(a)
    requires forall x, y :: x in a && y in a && x.at.text == y.at.text ==> x.at.instant == y.at.instant
    ensures Sort(ActionLeq, a) == Sort(ActionLeq, b)
  {
    ActionOrderIsTotal();
    forall x, y | x in a && y in a && ActionLeq(x, y) && ActionLeq(y, x)
      ensures x == y
    {
      var i :| 0 <= i < |a| && a[i] == x;
      var j :| 0 <= j < |a| && a[j] == y;
      assert KeyOf(a[i]) == KeyOf(a[j]);
    }
    SortPermutation(ActionLeq, a, b);
  }

  /** What a refusal says is so. */
  ghost predicate Justified(actions: seq<Action>, error: ManifestError) {
    match error
    case DuplicateAction(key) => Duplicated(actions, key)
    case ConflictingChain(i) => DistinctKeys(actions) && Conflict(actions, i)
  }

  /** A manifest is accepted exactly when no two actions share instrument, instant and type and every symbol change
      starts from the symbol the one before it left. It then stores the actions in canonical order. */
  method Validate(actions: seq<Action>) returns (r: Result<seq<Action>, ManifestError>)
    ensures r.Success? <==> DistinctKeys(actions) && Chained(actions)
    ensures r.Success? ==> r.value == Sort(ActionLeq, actions)
    ensures r.Failure? ==> Justified(actions, r.error)
  {
    var duplicate := FindDuplicate(actions);
    if duplicate.Some? {
      return Failure(DuplicateAction(duplicate.value));
    }
    var stored := Sort(ActionLeq, actions);
    CanonicalSame(actions);
    var wrong := CheckStored(stored);
    if wrong.Some? {
      return Failure(ConflictingChain(wrong.value));
    }
    return Success(stored);
  }

  method CheckStored(actions: seq<Action>) returns (wrong: Option<Instrument>)
    requires DistinctKeys(actions)
    ensures wrong == None <==> Chained(actions)
    ensures wrong.Some? ==> Conflict(actions, wrong.value)
  {
    var instruments, groups := GroupBy(InstrumentOf, Filter(IsChange, actions));
    KeysCover(InstrumentOf, Filter(IsChange, actions), instruments, groups, ChainOf(actions));
    ChainsDecide(actions);
    wrong := CheckChains(actions, instruments, groups);
    if wrong.Some? {
      AdjacentIsNext(actions, wrong.value);
    }
  }

  /** The stored order: by instrument, then by the text of the moment, then reverse splits before forward splits
      before renames. */
  lemma StoredInOrder(actions: seq<Action>)
    ensures var s := Sort(ActionLeq, actions);
            && multiset(s) == multiset(actions)
            && forall i, j :: 0 <= i < j < |s| ==>
                 && s[i].instrument <= s[j].instrument
                 && (s[i].instrument == s[j].instrument ==>
                       && s[i].at.text <= s[j].at.text
                       && (s[i].at.text == s[j].at.text ==>
                             && (TypeOf(s[j]) == ReverseSplit ==> TypeOf(s[i]) == ReverseSplit)
                             && (TypeOf(s[i]) == Rename ==> TypeOf(s[j]) == Rename)))
  {
    var s := Sort(ActionLeq, actions);
    ActionOrderIsTotal();
    SortSorted(ActionLeq, actions);
    forall i, j | 0 <= i < j < |s|
      ensures ActionLeq(s[i], s[j])
    {
    }
  }

  /** Two actions are duplicates when they share instrument, instant and kind: a split into more shares, a split into
      fewer, or a renaming. */
  lemma DuplicatesMean(actions: seq<Action>)
    ensures DistinctKeys(actions)
       <==> forall i, j :: 0 <= i < j < |actions| ==> !SameKind(actions[i], actions[j])
  {
    forall i, j | 0 <= i < j < |actions|
      ensures KeyOf(actions[i]) == KeyOf(actions[j]) <==> SameKind(actions[i], actions[j])
    {
      KindsMean(actions[i], actions[j]);
    }
  }

  predicate SameKind(a: Action, b: Action) {
    && a.instrument == b.instrument && a.at.instant == b.at.instant
    && ((a.SymbolChange? && b.SymbolChange?)
        || (a.Split? && b.Split? && (a.newShares > a.oldShares) == (b.newShares > b.oldShares)))
  }

  lemma KindsMean(a: Action, b: Action)
    ensures KeyOf(a) == KeyOf(b) <==> SameKind(a, b)
  {
  }
}
