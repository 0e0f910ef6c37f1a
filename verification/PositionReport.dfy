/** What the derivation reports, field by field, in terms of the events alone. */
module PositionReport {
  import opened Wrappers
  import opened Sorting
  import opened DecimalText
  import opened PositionFold
  import opened PositionLedger
  import opened PositionState

  /** The events of `key`, by time and identifier. */
  function Life(events: seq<Event>, key: Id): seq<Event> {
    Ordered(KeyEvents(events, key))
  }

  /** A life is in the order of the timestamps, identifiers deciding ties, and leaves nothing out. */
  lemma LifeIsChronological(events: seq<Event>, key: Id)
    ensures var life := Life(events, key);
            && (forall i, j :: 0 <= i < j < |life| ==>
                  life[i].at < life[j].at
                  || (life[i].at == life[j].at && life[i].governanceId <= life[j].governanceId))
            && multiset(life) == multiset(KeyEvents(events, key))
            && (forall e :: e in life <==> e in events && e.position == key)
  {
    OrderIsTotal();
    SortSorted(OrderLeq, KeyEvents(events, key));
    OrderedMembers(KeyEvents(events, key));
    var life := Life(events, key);
    forall i, j | 0 <= i < j < |life|
      ensures life[i].at < life[j].at
              || (life[i].at == life[j].at && life[i].governanceId <= life[j].governanceId)
    {
      assert OrderLeq(life[i], life[j]);
    }
  }

  /** What is left of `key`, and what that cost at the opening's price. */
  ghost function RemainderOf(events: seq<Event>): Id -> int {
    (key: Id) => if Coherent(Life(events, key)) then Remaining(Life(events, key)) else 0
  }

  ghost function ValueLeft(events: seq<Event>): Id -> int {
    (key: Id) =>
      if Coherent(Life(events, key)) then Remaining(Life(events, key)) * PriceUnits(Life(events, key)[0]) else 0
  }

  /** Every field of `p` is what the life of its key says. */
  ghost predicate Reports(p: DerivedPosition, life: seq<Event>) {
    && Coherent(life) && p.position == life[0].position && p.symbol == life[0].symbol
    && p.openQuantity == Remaining(life) && (p.isOpen <==> Remaining(life) > 0)
    && ScaledFromMoney(p.entryPrice) == ScaledPrice(life[0].price)
    && p.openNotional == Remaining(life) * PriceUnits(life[0])
    && p.openedAt == life[0].at && p.lastEventAt == life[|life| - 1].at && p.eventCount == |life|
  }

  lemma PriceIsUnits(e: Event)
    requires ValidEvent(e)
    ensures ScaledPrice(e.price) == Some(PriceUnits(e))
  {
    AdmittedPriceScales(e.price);
  }

  lemma DerivedReports(key: Id, life: seq<Event>)
    requires AllValid(life) && Fold(life).Success? && forall e :: e in life ==> e.position == key
    ensures Reports(DeriveOne(key, life).value, life)
  {
    FoldCharacterised(life);
    assert life[0] in life;
    PriceIsUnits(life[0]);
    MoneyRoundTrip(PriceUnits(life[0]));
  }

  lemma LifeValid(events: seq<Event>, key: Id)
    requires AllValid(events)
    ensures AllValid(Life(events, key)) && forall e :: e in Life(events, key) ==> e.position == key
  {
    LifeIsChronological(events, key);
  }

  /** The positions before they are parted: one per key, in ascending order, each as its life says. */
  lemma EachReports(events: seq<Event>, keys: seq<Id>, i: nat)
    requires AllValid(events) && DeriveEach(events, keys).Success? && i < |keys|
    ensures |DeriveEach(events, keys).value| == |keys|
    ensures var p := DeriveEach(events, keys).value[i];
            && p.position == keys[i] && Reports(p, Life(events, keys[i]))
            && p.openQuantity == RemainderOf(events)(keys[i]) && p.openNotional == ValueLeft(events)(keys[i])
  {
    DeriveEachCharacterised(events, keys);
    LifeValid(events, keys[i]);
    DerivedReports(keys[i], Life(events, keys[i]));
  }

  lemma {:induction false} SumImage<T, U>(f: T -> int, g: U -> int, s: seq<T>, t: seq<U>)
    requires |s| == |t| && forall i :: 0 <= i < |s| ==> f(s[i]) == g(t[i])
    ensures Sum(f, s) == Sum(g, t)
  {
    if s == [] {
    } else {
      SumImage(f, g, s[..|s| - 1], t[..|t| - 1]);
    }
  }

  lemma OpenTotals(positions: seq<DerivedPosition>)
    requires forall p :: p in positions && !p.isOpen ==> p.openQuantity == p.openNotional == 0
    ensures Sum(QuantityOf, Filter(IsOpen, positions)) == Sum(QuantityOf, positions)
    ensures Sum(NotionalOf, Filter(IsOpen, positions)) == Sum(NotionalOf, positions)
  {
    SumSplit(QuantityOf, IsOpen, IsClosed, positions);
    SumSplit(NotionalOf, IsOpen, IsClosed, positions);
    SumZero(QuantityOf, Filter(IsClosed, positions));
    SumZero(NotionalOf, Filter(IsClosed, positions));
  }

  lemma NothingTimes(left: int, units: int)
    requires left == 0
    ensures left * units == 0
  {
  }

  lemma ClosedHoldsNothing(p: DerivedPosition, life: seq<Event>)
    requires AllValid(life) && Reports(p, life) && !p.isOpen
    ensures p.openQuantity == 0 && p.openNotional == 0
  {
    FoldCharacterised(life);
    NothingTimes(Remaining(life), PriceUnits(life[0]));
  }

  /** The totals over some keys. */
  lemma KeyTotals(events: seq<Event>, keys: seq<Id>)
    requires AllValid(events) && DeriveEach(events, keys).Success?
    ensures var held := Filter(IsOpen, DeriveEach(events, keys).value);
            && Sum(QuantityOf, held) == Sum(RemainderOf(events), keys)
            && Sum(NotionalOf, held) == Sum(ValueLeft(events), keys)
  {
    var positions := DeriveEach(events, keys).value;
    DeriveEachCharacterised(events, keys);
    forall i | 0 <= i < |keys|
      ensures QuantityOf(positions[i]) == RemainderOf(events)(keys[i])
      ensures NotionalOf(positions[i]) == ValueLeft(events)(keys[i])
      ensures !positions[i].isOpen ==> positions[i].openQuantity == positions[i].openNotional == 0
    {
      EachReports(events, keys, i);
      LifeValid(events, keys[i]);
      if !positions[i].isOpen {
        ClosedHoldsNothing(positions[i], Life(events, keys[i]));
      }
    }
    OpenTotals(positions);
    SumImage(QuantityOf, RemainderOf(events), positions, keys);
    SumImage(NotionalOf, ValueLeft(events), positions, keys);
  }

  /** How many events count, how many do not yet, and what is held in all: the sum, over the keys that count, of
      what each life leaves open, and the sum of those remainders at their opening prices. */
  lemma TotalsReported(events: seq<Event>, asOf: Moment)
    requires AllValid(events) && DeriveState(events, asOf).Success?
    ensures var state, considered := DeriveState(events, asOf).value, Filter(UpTo(asOf), events);
            && state.considered == |set i | 0 <= i < |events| && events[i].at <= asOf|
            && state.excluded == |events| - state.considered
            && state.totalOpenQuantity == Sum(RemainderOf(considered), SortedKeys(considered))
            && state.totalOpenNotional == Sum(ValueLeft(considered), SortedKeys(considered))
  {
    var considered := Filter(UpTo(asOf), events);
    ConsideredCount(events, asOf);
    KeyTotalsReported(considered, SortedKeys(considered), |events|);
  }

  lemma ConsideredCount(events: seq<Event>, asOf: Moment)
    ensures |Filter(UpTo(asOf), events)| == |set i | 0 <= i < |events| && events[i].at <= asOf|
  {
    FilterCount(UpTo(asOf), events);
    assert Places(UpTo(asOf), events) == set i | 0 <= i < |events| && events[i].at <= asOf;
  }

  lemma KeyTotalsReported(considered: seq<Event>, keys: seq<Id>, total: nat)
    requires AllValid(considered) && |considered| <= total && DeriveKeys(considered, keys, total).Success?
    ensures var state := DeriveKeys(considered, keys, total).value;
            && state.considered == |considered| && state.excluded == total - |considered|
            && state.totalOpenQuantity == Sum(RemainderOf(considered), keys)
            && state.totalOpenNotional == Sum(ValueLeft(considered), keys)
  {
    var each := DeriveEach(considered, keys);
    KeysReport(considered, keys, total, each);
    KeyTotals(considered, keys);
    SummarisedTotals(each.value, |considered|, total - |considered|);
  }

  lemma SummarisedTotals(positions: seq<DerivedPosition>, considered: nat, excluded: nat)
    ensures var state := Summarise(positions, considered, excluded);
            && state.considered == considered && state.excluded == excluded
            && state.open == Filter(IsOpen, positions) && state.closed == Filter(IsClosed, positions)
            && state.totalOpenQuantity == Sum(QuantityOf, state.open)
            && state.totalOpenNotional == Sum(NotionalOf, state.open)
  {
  }

  predicate Earlier(a: DerivedPosition, b: DerivedPosition) {
    a.position < b.position
  }

  /** The listed positions are those of the keys that count, each once, in ascending order, open ones and closed ones
      apart, and every field says what the life of its key says. */
  lemma PositionsReported(events: seq<Event>, asOf: Moment)
    requires AllValid(events) && DeriveState(events, asOf).Success?
    ensures var state, considered := DeriveState(events, asOf).value, Filter(UpTo(asOf), events);
            && (forall p :: p in state.open ==> p.isOpen) && (forall p :: p in state.closed ==> !p.isOpen)
            && (forall p :: p in state.open || p in state.closed ==>
                  KeyEvents(considered, p.position) != [] && Reports(p, Life(considered, p.position)))
            && (forall k :: KeyEvents(considered, k) != [] ==>
                  exists p :: (p in state.open || p in state.closed) && p.position == k)
            && IsSorted(Earlier, state.open) && IsSorted(Earlier, state.closed)
  {
    var considered := Filter(UpTo(asOf), events);
    forall k: Id | true
      ensures k in SortedKeys(considered) <==> KeyEvents(considered, k) != []
    {
      KeysOccur(considered, k);
      InSort(IdLeq, KeysInOrder(considered), k);
    }
    KeysAscend(considered);
    ListReported(considered, SortedKeys(considered), |events|);
  }

  lemma KeysAscend(considered: seq<Event>)
    ensures var keys := SortedKeys(considered); forall i, j :: 0 <= i < j < |keys| ==> keys[i] < keys[j]
  {
    var keys := SortedKeys(considered);
    SortSorted(IdLeq, KeysInOrder(considered));
    SortDistinct(IdLeq, Itself, KeysInOrder(considered));
    forall i, j | 0 <= i < j < |keys|
      ensures keys[i] < keys[j]
    {
      assert IdLeq(keys[i], keys[j]) && Itself(keys[i]) != Itself(keys[j]);
    }
  }

  function Itself(k: Id): Id {
    k
  }

  lemma ListReported(considered: seq<Event>, keys: seq<Id>, total: nat)
    requires AllValid(considered) && |considered| <= total && DeriveKeys(considered, keys, total).Success?
    requires forall i, j :: 0 <= i < j < |keys| ==> keys[i] < keys[j]
    ensures var state := DeriveKeys(considered, keys, total).value;
            && (forall p :: p in state.open ==> p.isOpen) && (forall p :: p in state.closed ==> !p.isOpen)
            && (forall p :: p in state.open || p in state.closed ==>
                  p.position in keys && Reports(p, Life(considered, p.position)))
            && (forall k :: k in keys ==> exists p :: (p in state.open || p in state.closed) && p.position == k)
            && IsSorted(Earlier, state.open) && IsSorted(Earlier, state.closed)
  {
    var each := DeriveEach(considered, keys);
    KeysReport(considered, keys, total, each);
    SummarisedTotals(each.value, |considered|, total - |considered|);
    PositionPerKey(considered, keys);
    FilterKeepsOrder(Earlier, IsOpen, each.value);
    FilterKeepsOrder(Earlier, IsClosed, each.value);
    forall k | k in keys
      ensures exists p :: p in each.value && p.position == k
    {
      var i :| 0 <= i < |keys| && keys[i] == k;
      assert each.value[i].position == k;
    }
  }

  lemma PositionPerKey(considered: seq<Event>, keys: seq<Id>)
    requires AllValid(considered) && DeriveEach(considered, keys).Success?
    requires forall i, j :: 0 <= i < j < |keys| ==> keys[i] < keys[j]
    ensures var positions := DeriveEach(considered, keys).value;
            && |positions| == |keys| && (forall i :: 0 <= i < |keys| ==> positions[i].position == keys[i])
            && (forall p :: p in positions ==> p.position in keys && Reports(p, Life(considered, p.position)))
            && IsSorted(Earlier, positions)
  {
    DeriveEachCharacterised(considered, keys);
    var positions := DeriveEach(considered, keys).value;
    forall i | 0 <= i < |keys|
      ensures positions[i].position == keys[i] && Reports(positions[i], Life(considered, keys[i]))
    {
      EachReports(considered, keys, i);
    }
    forall p | p in positions
      ensures p.position in keys && Reports(p, Life(considered, p.position))
    {
      var i :| 0 <= i < |positions| && positions[i] == p;
      assert keys[i] in keys;
    }
  }
}
