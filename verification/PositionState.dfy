/** What the ledger says is held as of a moment: the whole-ledger derivation, one fold per position. */
module PositionState {
  import opened Wrappers
  import opened Sorting
  import Grouping
  import opened DecimalText
  import opened PositionFold
  import opened PositionLedger

  function PositionOf(e: Event): Id {
    e.position
  }

  /** Position keys in the order they first occur: the insertion order of the grouping dictionary. */
  function KeysInOrder(events: seq<Event>): (keys: seq<Id>)
    ensures forall i, j :: 0 <= i < j < |keys| ==> keys[i] != keys[j]
  {
    Grouping.KeysInOrder(PositionOf, events)
  }

  lemma KeysNext(events: seq<Event>, e: Event)
    ensures KeysInOrder(events + [e])
         == if e.position in KeysInOrder(events) then KeysInOrder(events) else KeysInOrder(events) + [e.position]
  {
    Grouping.KeysNext(PositionOf, events, e);
  }

  lemma SameFilter(events: seq<Event>, key: Id)
    ensures Filter(Grouping.WithKey(PositionOf, key), events) == KeyEvents(events, key)
  {
    FilterAgree(Grouping.WithKey(PositionOf, key), ForPosition(key), events);
  }

  lemma KeysOccur(events: seq<Event>, key: Id)
    ensures key in KeysInOrder(events) <==> KeyEvents(events, key) != []
  {
    Grouping.KeysOccur(PositionOf, events, key);
    SameFilter(events, key);
  }

  predicate IdLeq(a: Id, b: Id) {
    a <= b
  }

  function SortedKeys(events: seq<Event>): seq<Id> {
    Sort(IdLeq, KeysInOrder(events))
  }

  method GroupByPosition(events: seq<Event>) returns (keys: seq<Id>, groups: map<Id, seq<Event>>)
    ensures keys == KeysInOrder(events)
    ensures forall k :: k in groups <==> k in keys
    ensures forall k :: k in groups ==> groups[k] == KeyEvents(events, k)
  {
    keys, groups := Grouping.GroupBy(PositionOf, events);
    forall k | k in groups
      ensures k in keys && groups[k] == KeyEvents(events, k)
    {
      SameFilter(events, k);
    }
  }

  datatype DerivedPosition = DerivedPosition(
    position: Id,
    symbol: Id,
    openQuantity: int,
    isOpen: bool,
    entryPrice: string,
    openNotional: int,
    openedAt: Moment,
    lastEventAt: Moment,
    eventCount: nat)

  datatype PositionState = PositionState(
    open: seq<DerivedPosition>,
    closed: seq<DerivedPosition>,
    totalOpenQuantity: int,
    totalOpenNotional: int,
    considered: nat,
    excluded: nat)

  /** The asserted price in 10^-6 units. Every price a constructed event carries scales. */
  function PriceUnits(e: Event): int {
    match ScaledPrice(e.price)
    case Some(units) => units
    case None => 0
  }

  function UpTo(asOf: Moment): Event -> bool {
    (e: Event) => e.at <= asOf
  }

  function DeriveOne(key: Id, ordered: seq<Event>): (r: Result<DerivedPosition, Rejection>)
    ensures r.Failure? <==> Fold(ordered).Failure?
    ensures r.Failure? ==> r.error == Fold(ordered).error
  {
    var folded :- Fold(ordered);
    var units := PriceUnits(folded.opening);
    Success(DerivedPosition(
      key, folded.opening.symbol, folded.quantity, folded.isOpen, MoneyFromScaled(units), folded.quantity * units,
      folded.opening.at, ordered[|ordered| - 1].at, |ordered|))
  }

  /** The positions of `keys` in turn; the first key that does not fold decides the refusal. */
  function DeriveEach(events: seq<Event>, keys: seq<Id>): Result<seq<DerivedPosition>, Rejection> {
    if keys == [] then Success([])
    else
      var positions :- DeriveEach(events, keys[..|keys| - 1]);
      var position :- DeriveOne(keys[|keys| - 1], Ordered(KeyEvents(events, keys[|keys| - 1])));
      Success(positions + [position])
  }

  predicate IsOpen(p: DerivedPosition) {
    p.isOpen
  }

  predicate IsClosed(p: DerivedPosition) {
    !p.isOpen
  }

  function QuantityOf(p: DerivedPosition): int {
    p.openQuantity
  }

  function NotionalOf(p: DerivedPosition): int {
    p.openNotional
  }

  function Totalled(held: seq<DerivedPosition>, gone: seq<DerivedPosition>, considered: nat, excluded: nat)
    : PositionState
  {
    PositionState(held, gone, Sum(QuantityOf, held), Sum(NotionalOf, held), considered, excluded)
  }

  function Summarise(positions: seq<DerivedPosition>, considered: nat, excluded: nat): PositionState {
    Totalled(Filter(IsOpen, positions), Filter(IsClosed, positions), considered, excluded)
  }

  /** A refusal stands; positions are parted and totalled. */
  function Reported(r: Result<seq<DerivedPosition>, Rejection>, considered: nat, excluded: nat)
    : Result<PositionState, Rejection>
  {
    match r
    case Failure(reason) => Failure(reason)
    case Success(positions) => Success(Summarise(positions, considered, excluded))
  }

  /** The specification of `DerivePositionState`. */
  function DeriveState(events: seq<Event>, asOf: Moment): Result<PositionState, Rejection> {
    var considered := Filter(UpTo(asOf), events);
    DeriveKeys(considered, SortedKeys(considered), |events|)
  }

  /** The report on `keys`, considering some of `total` events. */
  function DeriveKeys(considered: seq<Event>, keys: seq<Id>, total: nat): Result<PositionState, Rejection>
    requires |considered| <= total
  {
    Reported(DeriveEach(considered, keys), |considered|, total - |considered|)
  }

  lemma {:induction false} DeriveEachFailsEarly(events: seq<Event>, keys: seq<Id>, n: nat)
    requires n <= |keys| && DeriveEach(events, keys[..n]).Failure?
    ensures DeriveEach(events, keys) == DeriveEach(events, keys[..n])
    decreases |keys| - n
  {
    if n == |keys| {
      assert keys[..n] == keys;
    } else {
      assert keys[..n + 1][..n] == keys[..n];
      DeriveEachFailsEarly(events, keys, n + 1);
    }
  }

  /** Sorting first and grouping afterwards lists every key's events in order. */
  lemma GroupOfOrdered(events: seq<Event>, key: Id)
    ensures KeyEvents(Ordered(events), key) == Ordered(KeyEvents(events, key))
  {
    OrderIsTotal();
    SortFilter(OrderLeq, ForPosition(key), events);
  }

  lemma {:induction false} SameKeys(a: seq<Event>, b: seq<Event>)
    requires multiset(a) == multiset(b)
    ensures multiset(KeysInOrder(a)) == multiset(KeysInOrder(b))
    ensures SortedKeys(a) == SortedKeys(b)
  {
    var ka, kb := KeysInOrder(a), KeysInOrder(b);
    forall k: Id | true
      ensures multiset(ka)[k] == multiset(kb)[k]
    {
      KeysOccur(a, k);
      KeysOccur(b, k);
      FilterMultiset(ForPosition(k), a, b);
      assert |KeyEvents(a, k)| == |multiset(KeyEvents(a, k))| == |KeyEvents(b, k)|;
      Multiplicity(ka, k);
      Multiplicity(kb, k);
    }
    assert multiset(ka) == multiset(kb);
    SortPermutation(IdLeq, ka, kb);
  }

  lemma SameVisibleKey(a: seq<Event>, b: seq<Event>, asOf: Moment, key: Id)
    requires multiset(a) == multiset(b) && DistinctIds(a)
    ensures var va, vb := KeyEvents(Filter(UpTo(asOf), a), key), KeyEvents(Filter(UpTo(asOf), b), key);
            && multiset(va) == multiset(vb) && |va| == |vb|
            && Ordered(va) == Ordered(vb)
  {
    var va, vb := KeyEvents(Filter(UpTo(asOf), a), key), KeyEvents(Filter(UpTo(asOf), b), key);
    FilterMultiset(UpTo(asOf), a, b);
    FilterMultiset(ForPosition(key), Filter(UpTo(asOf), a), Filter(UpTo(asOf), b));
    SameMembers(va, vb);
    DistinctKeys(a);
    OrderIsTotal();
    SortPermutation(OrderLeq, va, vb);
  }

  lemma {:induction false} SameDerivations(a: seq<Event>, b: seq<Event>, keys: seq<Id>)
    requires forall k :: k in keys ==> Ordered(KeyEvents(a, k)) == Ordered(KeyEvents(b, k))
    ensures DeriveEach(a, keys) == DeriveEach(b, keys)
  {
    if keys == [] {
    } else {
      SameDerivations(a, b, keys[..|keys| - 1]);
      assert keys[|keys| - 1] in keys;
    }
  }

  /** The derivation does not depend on the order in which the events are listed. */
  lemma DerivationIgnoresOrder(a: seq<Event>, b: seq<Event>, asOf: Moment)
    requires multiset(a) == multiset(b) && DistinctIds(a)
    ensures DeriveState(a, asOf) == DeriveState(b, asOf)
  {
    var ca, cb := Filter(UpTo(asOf), a), Filter(UpTo(asOf), b);
    SameConsidered(a, b, asOf);
    SameEach(a, b, asOf);
    SameReport(ca, cb, SortedKeys(ca), |a|, DeriveEach(ca, SortedKeys(ca)));
  }

  lemma SameReport(a: seq<Event>, b: seq<Event>, keys: seq<Id>, total: nat,
                   each: Result<seq<DerivedPosition>, Rejection>)
    requires |a| == |b| <= total && DeriveEach(a, keys) == each == DeriveEach(b, keys)
    ensures DeriveKeys(a, keys, total) == DeriveKeys(b, keys, total)
  {
    KeysReport(a, keys, total, each);
    KeysReport(b, keys, total, each);
  }

  /** What the loop over the groups parted, totalled, is the report. */
  lemma PartedReport(considered: seq<Event>, keys: seq<Id>, total: nat, each: Result<seq<DerivedPosition>, Rejection>,
                     parted: Result<(seq<DerivedPosition>, seq<DerivedPosition>), Rejection>)
    requires |considered| <= total && DeriveEach(considered, keys) == each && parted == Parted(each)
    ensures parted.Failure? ==> DeriveKeys(considered, keys, total) == Failure(parted.error)
    ensures parted.Success? ==>
              DeriveKeys(considered, keys, total)
              == Success(Totalled(parted.value.0, parted.value.1, |considered|, total - |considered|))
  {
    KeysReport(considered, keys, total, each);
  }

  lemma KeysReport(a: seq<Event>, keys: seq<Id>, total: nat, each: Result<seq<DerivedPosition>, Rejection>)
    requires |a| <= total && DeriveEach(a, keys) == each
    ensures each.Failure? ==> DeriveKeys(a, keys, total) == Failure(each.error)
    ensures each.Success? ==> DeriveKeys(a, keys, total) == Success(Summarise(each.value, |a|, total - |a|))
  {
  }

  lemma SameConsidered(a: seq<Event>, b: seq<Event>, asOf: Moment)
    requires multiset(a) == multiset(b)
    ensures var ca, cb := Filter(UpTo(asOf), a), Filter(UpTo(asOf), b);
            |a| == |b| && |ca| == |cb| && SortedKeys(ca) == SortedKeys(cb)
  {
    var ca, cb := Filter(UpTo(asOf), a), Filter(UpTo(asOf), b);
    FilterMultiset(UpTo(asOf), a, b);
    SameMembers(a, b);
    SameMembers(ca, cb);
    SameKeys(ca, cb);
  }

  lemma SameEach(a: seq<Event>, b: seq<Event>, asOf: Moment)
    requires multiset(a) == multiset(b) && DistinctIds(a)
    ensures var ca, cb := Filter(UpTo(asOf), a), Filter(UpTo(asOf), b);
            DeriveEach(ca, SortedKeys(ca)) == DeriveEach(cb, SortedKeys(cb))
  {
    var ca, cb := Filter(UpTo(asOf), a), Filter(UpTo(asOf), b);
    SameConsidered(a, b, asOf);
    forall k | k in SortedKeys(ca)
      ensures Ordered(KeyEvents(ca, k)) == Ordered(KeyEvents(cb, k))
    {
      SameVisibleKey(a, b, asOf, k);
    }
    SameDerivations(ca, cb, SortedKeys(ca));
  }

  lemma DeriveEachStep(events: seq<Event>, keys: seq<Id>, i: nat, positions: seq<DerivedPosition>)
    requires i < |keys| && DeriveEach(events, keys[..i]) == Success(positions)
    ensures var one := DeriveOne(keys[i], Ordered(KeyEvents(events, keys[i])));
            if one.Failure? then DeriveEach(events, keys) == Failure(one.error)
            else DeriveEach(events, keys[..i + 1]) == Success(positions + [one.value])
  {
    assert keys[..i + 1][..i] == keys[..i];
    if DeriveOne(keys[i], Ordered(KeyEvents(events, keys[i]))).Failure? {
      DeriveEachFailsEarly(events, keys, i + 1);
    }
  }

  lemma GroupedAsSpecified(considered: seq<Event>)
    ensures Sort(IdLeq, KeysInOrder(Ordered(considered))) == SortedKeys(considered)
    ensures forall k :: k in KeysInOrder(Ordered(considered)) <==> k in SortedKeys(considered)
    ensures forall k :: KeyEvents(Ordered(considered), k) == Ordered(KeyEvents(considered, k))
  {
    SameKeys(Ordered(considered), considered);
    forall k: Id | true
      ensures k in KeysInOrder(Ordered(considered)) <==> k in SortedKeys(considered)
      ensures KeyEvents(Ordered(considered), k) == Ordered(KeyEvents(considered, k))
    {
      InSort(IdLeq, KeysInOrder(Ordered(considered)), k);
      GroupOfOrdered(considered, k);
    }
  }

  /** The open positions and the closed ones. */
  function Parted(r: Result<seq<DerivedPosition>, Rejection>)
    : Result<(seq<DerivedPosition>, seq<DerivedPosition>), Rejection>
  {
    match r
    case Failure(reason) => Failure(reason)
    case Success(positions) => Success((Filter(IsOpen, positions), Filter(IsClosed, positions)))
  }

  /** The loop over the sorted keys: positions still open, positions closed. */
  method FoldGroups(considered: seq<Event>, keys: seq<Id>, groups: map<Id, seq<Event>>)
    returns (r: Result<(seq<DerivedPosition>, seq<DerivedPosition>), Rejection>)
    requires forall k :: k in keys ==> k in groups && groups[k] == Ordered(KeyEvents(considered, k))
    ensures r == Parted(DeriveEach(considered, keys))
  {
    var held: seq<DerivedPosition>, gone: seq<DerivedPosition> := [], [];
    ghost var positions: seq<DerivedPosition> := [];
    var i := 0;
    while i < |keys|
      invariant 0 <= i <= |keys|
      invariant DeriveEach(considered, keys[..i]) == Success(positions)
      invariant held == Filter(IsOpen, positions) && gone == Filter(IsClosed, positions)
    {
      assert keys[i] in keys;
      DeriveEachStep(considered, keys, i, positions);
      match DeriveOne(keys[i], groups[keys[i]]) {
        case Failure(reason) =>
          return Failure(reason);
        case Success(position) =>
          FilterNext(IsOpen, positions, position);
          FilterNext(IsClosed, positions, position);
          positions := positions + [position];
          if position.isOpen {
            held := held + [position];
          } else {
            gone := gone + [position];
          }
      }
      i := i + 1;
    }
    assert keys[..i] == keys;
    return Success((held, gone));
  }

  method DerivePositionState(events: seq<Event>, asOf: Moment, aware: bool)
    returns (r: Result<PositionState, Rejection>)
    ensures r == if aware then DeriveState(events, asOf) else Failure(NaiveTimestamp)
  {
    if !aware {
      return Failure(NaiveTimestamp);
    }
    var considered := Filter(UpTo(asOf), events);
    var inOrder, groups := GroupByPosition(Ordered(considered));
    GroupedAsSpecified(considered);
    var folded := FoldGroups(considered, Sort(IdLeq, inOrder), groups);
    ghost var keys := SortedKeys(considered);
    PartedReport(considered, keys, |events|, DeriveEach(considered, keys), folded);
    match folded {
      case Failure(reason) => r := Failure(reason);
      case Success((held, gone)) => r := Success(Totalled(held, gone, |considered|, |events| - |considered|));
    }
  }

  // ----- what the derivation says -----

  /** The derivation is refused exactly when some key it considers does not fold; otherwise it reports one
      position per key, that key's own. */
  lemma DeriveEachCharacterised(events: seq<Event>, keys: seq<Id>)
    ensures DeriveEach(events, keys).Failure?
       <==> exists k :: k in keys && Fold(Ordered(KeyEvents(events, k))).Failure?
    ensures var r := DeriveEach(events, keys);
            r.Success? ==> |r.value| == |keys| && forall i :: 0 <= i < |keys| ==>
              DeriveOne(keys[i], Ordered(KeyEvents(events, keys[i]))) == Success(r.value[i])
  {
    EachDerives(events, keys);
    if DeriveEach(events, keys).Failure? {
      var i :| 0 <= i < |keys| && !Derives(events, keys[i]);
      assert keys[i] in keys;
    } else {
      forall k | k in keys
        ensures Fold(Ordered(KeyEvents(events, k))).Success?
      {
        var i :| 0 <= i < |keys| && keys[i] == k;
        assert Derives(events, keys[i]);
      }
    }
  }

  /** The position of key `k`, or why it does not fold. */
  function DeriveKey(events: seq<Event>, k: Id): Result<DerivedPosition, Rejection> {
    DeriveOne(k, Ordered(KeyEvents(events, k)))
  }

  predicate Derives(events: seq<Event>, k: Id) {
    DeriveKey(events, k).Success?
  }

  lemma {:induction false} EachDerives(events: seq<Event>, keys: seq<Id>)
    ensures DeriveEach(events, keys).Success? <==> forall i :: 0 <= i < |keys| ==> Derives(events, keys[i])
    ensures var r := DeriveEach(events, keys);
            r.Success? ==> |r.value| == |keys| && forall i :: 0 <= i < |keys| ==>
              DeriveKey(events, keys[i]) == Success(r.value[i])
  {
    if keys == [] {
    } else {
      var front, k := keys[..|keys| - 1], keys[|keys| - 1];
      assert keys == front + [k];
      EachDerives(events, front);
      DeriveEachNext(events, front, k, DeriveEach(events, front), DeriveKey(events, k));
    }
  }

  lemma DeriveEachNext(events: seq<Event>, keys: seq<Id>, k: Id, each: Result<seq<DerivedPosition>, Rejection>,
                       one: Result<DerivedPosition, Rejection>)
    requires each == DeriveEach(events, keys) && one == DeriveKey(events, k)
    ensures each.Failure? ==> DeriveEach(events, keys + [k]) == each
    ensures each.Success? && one.Failure? ==> DeriveEach(events, keys + [k]) == Failure(one.error)
    ensures each.Success? && one.Success? ==> DeriveEach(events, keys + [k]) == Success(each.value + [one.value])
  {
    assert (keys + [k])[..|keys|] == keys;
  }

  /** A ledger built by appends derives at every moment: `DeriveState` never refuses it. */
  lemma DerivationNeverRefuses(events: seq<Event>, asOf: Moment)
    requires LedgerInvariant(events)
    ensures DeriveState(events, asOf).Success?
  {
    var considered := Filter(UpTo(asOf), events);
    DeriveEachCharacterised(considered, SortedKeys(considered));
    forall k | k in SortedKeys(considered)
      ensures Fold(Ordered(KeyEvents(considered, k))).Success?
    {
      InSort(IdLeq, KeysInOrder(considered), k);
      KeysOccur(considered, k);
      PastOfLife(events, k, asOf);
    }
  }

  /** What a moment shows of a coherent life starts with its opening. */
  lemma PastOfLife(events: seq<Event>, key: Id, asOf: Moment)
    requires LedgerInvariant(events) && KeyEvents(Filter(UpTo(asOf), events), key) != []
    ensures Fold(Ordered(KeyEvents(Filter(UpTo(asOf), events), key))).Success?
  {
    FilterCommutes(ForPosition(key), UpTo(asOf), events);
    var mine := KeyEvents(events, key);
    var past := Filter(UpTo(asOf), mine);
    assert past[0] in past && past[0] in mine && past[0] in events;
    PastFolds(mine, asOf, past[0]);
  }

  lemma PastFolds(mine: seq<Event>, asOf: Moment, e: Event)
    requires AllValid(mine) && Coherent(Ordered(mine)) && e in mine && e.at <= asOf
    ensures Fold(Ordered(Filter(UpTo(asOf), mine))).Success?
  {
    var life := Ordered(mine);
    OrderIsTotal();
    SortFilter(OrderLeq, UpTo(asOf), mine);
    OrderedMembers(mine);
    OpeningFirst(mine, e);
    CoherentFilter(UpTo(asOf), life);
    FoldCharacterised(Filter(UpTo(asOf), life));
  }

  lemma OpeningFirst(mine: seq<Event>, e: Event)
    requires e in mine && Ordered(mine) != []
    ensures Ordered(mine)[0].at <= e.at
  {
    OrderIsTotal();
    SortSorted(OrderLeq, mine);
    OrderedMembers(mine);
    var i :| 0 <= i < |Ordered(mine)| && Ordered(mine)[i] == e;
    assert i == 0 || OrderLeq(Ordered(mine)[0], Ordered(mine)[i]);
  }
}
