/** Where the unaccounted quantity of a round trip comes from, on ledgers built by appends.

    A close stores the quantity open when it was appended. A reduction hidden at K, or one back-dated
    behind a close, is the only thing that can make the visible exits disagree with the opening. */
module RoundTripAccounting {
  import opened Wrappers
  import opened Sorting
  import opened PositionFold
  import opened PositionLedger
  import opened PositionState
  import opened EvidenceAvailability
  import opened RoundTrip

  function ShownAt(effective: Moment, knowledge: Moment): Event -> bool {
    (e: Event) => e.at <= effective && e.recordedAt <= knowledge
  }

  function HiddenAt(effective: Moment, knowledge: Moment): Event -> bool {
    (e: Event) => !(e.at <= effective && e.recordedAt <= knowledge)
  }

  /** Reduced quantity of `key` among `events` that (E, K) shows, and that it hides. */
  function ShownReduced(events: seq<Event>, key: Id, effective: Moment, knowledge: Moment): int {
    Sum(ReducedQuantity, Filter(ShownAt(effective, knowledge), KeyEvents(events, key)))
  }

  function HiddenReduced(events: seq<Event>, key: Id, effective: Moment, knowledge: Moment): int {
    Sum(ReducedQuantity, Filter(HiddenAt(effective, knowledge), KeyEvents(events, key)))
  }

  lemma {:induction false} TwoFilters(effective: Moment, knowledge: Moment, s: seq<Event>)
    ensures Filter(UpTo(effective), Filter(KnownBy(knowledge), s)) == Filter(ShownAt(effective, knowledge), s)
  {
    if s == [] {
    } else {
      TwoFilters(effective, knowledge, s[..|s| - 1]);
      var front, last := s[..|s| - 1], s[|s| - 1];
      if KnownBy(knowledge)(last) {
        FilterConcat(UpTo(effective), Filter(KnownBy(knowledge), front), [last]);
        assert [last][..0] == [];
      }
    }
  }

  lemma VisibleIsShown(events: seq<Event>, key: Id, effective: Moment, knowledge: Moment)
    ensures VisibleKey(events, key, effective, knowledge)
         == Filter(ShownAt(effective, knowledge), KeyEvents(events, key))
  {
    FilterCommutes(ForPosition(key), UpTo(effective), EventsKnownBy(events, knowledge));
    FilterCommutes(ForPosition(key), KnownBy(knowledge), events);
    TwoFilters(effective, knowledge, KeyEvents(events, key));
  }

  lemma {:induction false} ExitSum(s: seq<Event>)
    ensures Sum(QuantityIn, Filter(IsExit, s)) == Sum(ReducedQuantity, s) + Sum(ClosedQuantity, s)
  {
    if s == [] {
    } else {
      ExitSum(s[..|s| - 1]);
      SumExtend(QuantityIn, Filter(IsExit, s[..|s| - 1]), s[|s| - 1]);
    }
  }

  lemma FoldedEntry(visible: seq<Event>, key: Id, effective: Moment)
    requires Stamped(visible, effective) && KeyEvents(visible, key) != []
    requires Fold(Ordered(KeyEvents(visible, key))).Success?
    ensures var mine := KeyEvents(visible, key);
            && (exists e :: e in mine && e.kind == Opened)
            && RoundTripAt(visible, key, effective)
               == Resolved(key, mine, OpeningIn(mine), DeriveOne(key, Ordered(mine)).value)
  {
    GroupIsOneKey(visible, key, effective);
    FoldedHasOpening(KeyEvents(visible, key));
  }

  /** What (E, K) shows of a position opened by K. */
  lemma ShownLife(events: seq<Event>, key: Id, effective: Moment, knowledge: Moment)
    requires LedgerInvariant(events) && VisibleKey(events, key, effective, knowledge) != []
    requires KeyEvents(events, key) != [] && OpeningOf(events, key).recordedAt <= knowledge
    ensures var shown := VisibleKey(events, key, effective, knowledge);
            && AllValid(shown) && Coherent(Ordered(shown)) && Ordered(shown)[0] == OpeningOf(events, key)
            && Fold(Ordered(shown)) == Success(Folded(Remaining(Ordered(shown)), Remaining(Ordered(shown)) > 0,
                                                      OpeningOf(events, key)))
            && Remaining(Ordered(shown)) >= 0
            && (forall e :: e in shown && e.kind == Opened ==> e == OpeningOf(events, key))
  {
    var shown := VisibleKey(events, key, effective, knowledge);
    VisibleLifeFolds(events, key, effective, knowledge);
    OrderedMembers(shown);
    FoldCharacterised(Ordered(shown));
    OpeningIsUnique(events, key);
  }

  /** The quantities of a resolved entry are sums over what is shown of the position. */
  lemma EntryQuantities(events: seq<Event>, key: Id, effective: Moment, knowledge: Moment)
    requires LedgerInvariant(events) && VisibleKey(events, key, effective, knowledge) != []
    requires KeyEvents(events, key) != [] && OpeningOf(events, key).recordedAt <= knowledge
    ensures var shown := VisibleKey(events, key, effective, knowledge);
            var entry := RoundTripFor(events, key, effective, knowledge);
            && Coherent(Ordered(shown)) && Ordered(shown)[0] == OpeningOf(events, key)
            && entry.openedQuantity == OpeningOf(events, key).quantity
            && entry.exitedQuantity == Sum(ReducedQuantity, shown) + Sum(ClosedQuantity, shown)
            && entry.stillOpen == Remaining(Ordered(shown)) >= 0
            && entry.unaccounted == entry.openedQuantity - entry.exitedQuantity - entry.stillOpen
            && entry.status == Status(entry.unaccounted, entry.exitedQuantity, entry.stillOpen > 0)
            && entry.result.Some? == entry.entryCost.Some? == (entry.exitedQuantity > 0)
  {
    var shown, opening := VisibleKey(events, key, effective, knowledge), OpeningOf(events, key);
    ShownLife(events, key, effective, knowledge);
    var known := Filter(UpTo(effective), EventsKnownBy(events, knowledge));
    FoldedQuantities(known, key, effective, Remaining(Ordered(shown)), opening);
    ExitSum(shown);
  }

  lemma FoldedQuantities(visible: seq<Event>, key: Id, effective: Moment, open: int, opening: Event)
    requires Stamped(visible, effective) && KeyEvents(visible, key) != []
    requires Fold(Ordered(KeyEvents(visible, key))) == Success(Folded(open, open > 0, opening))
    requires forall e :: e in KeyEvents(visible, key) && e.kind == Opened ==> e == opening
    ensures var entry := RoundTripAt(visible, key, effective);
            && entry.openedQuantity == opening.quantity && entry.stillOpen == open
            && entry.exitedQuantity == Sum(QuantityIn, Filter(IsExit, KeyEvents(visible, key)))
            && entry.unaccounted == entry.openedQuantity - entry.exitedQuantity - entry.stillOpen
            && entry.status == Status(entry.unaccounted, entry.exitedQuantity, entry.stillOpen > 0)
            && entry.result.Some? == entry.entryCost.Some? == (entry.exitedQuantity > 0)
  {
    var mine := KeyEvents(visible, key);
    FoldedEntry(visible, key, effective);
    ResolvedFields(key, mine, opening, DeriveOne(key, Ordered(mine)).value);
  }

  lemma ResolvedFields(key: Id, mine: seq<Event>, opening: Event, position: DerivedPosition)
    requires mine != []
    ensures var entry := Resolved(key, mine, opening, position);
            && entry.openedQuantity == opening.quantity && entry.stillOpen == position.openQuantity
            && entry.exitedQuantity == Sum(QuantityIn, Filter(IsExit, mine))
            && entry.unaccounted == entry.openedQuantity - entry.exitedQuantity - entry.stillOpen
            && entry.status == Status(entry.unaccounted, entry.exitedQuantity, position.isOpen)
            && entry.result.Some? == entry.entryCost.Some? == (entry.exitedQuantity > 0)
  {
    var exits, units := Filter(IsExit, mine), PriceUnits(opening);
    var exited := Sum(QuantityIn, exits);
    AccountedFields(key, mine, opening, position, units, |exits|, exited, exited * units, Sum(Consideration, exits));
  }

  lemma AccountedFields(key: Id, mine: seq<Event>, opening: Event, position: DerivedPosition, units: int, exits: nat,
                        exited: int, cost: int, consideration: int)
    requires mine != []
    ensures var entry := Accounted(key, mine, opening, position, units, exits, exited, cost, consideration);
            && entry.openedQuantity == opening.quantity && entry.stillOpen == position.openQuantity
            && entry.exitedQuantity == exited
            && entry.unaccounted == entry.openedQuantity - entry.exitedQuantity - entry.stillOpen
            && entry.status == Status(entry.unaccounted, entry.exitedQuantity, position.isOpen)
            && entry.result.Some? == entry.entryCost.Some? == (entry.exitedQuantity > 0)
  {
  }

  /** Money is there exactly with exits, whatever the evidence. */
  lemma MoneyMeansExit(visible: seq<Event>, key: Id, effective: Moment)
    requires Stamped(visible, effective) && KeyEvents(visible, key) != []
    ensures var entry := RoundTripAt(visible, key, effective);
            entry.result.Some? ==> entry.exitedQuantity > 0
  {
    var mine := KeyEvents(visible, key);
    if Fold(Ordered(mine)).Success? {
      FoldedEntry(visible, key, effective);
      ResolvedFields(key, mine, OpeningIn(mine), DeriveOne(key, Ordered(mine)).value);
    } else {
      UnresolvedEntry(visible, key, effective);
    }
  }

  lemma ClosedShown(shown: seq<Event>)
    requires AllValid(shown) && Coherent(Ordered(shown))
    ensures (forall e :: e in shown ==> e.kind != Closed) ==>
              Sum(ClosedQuantity, shown) == 0
              && Remaining(Ordered(shown)) == Ordered(shown)[0].quantity - Sum(ReducedQuantity, shown)
    ensures forall e :: e in shown && e.kind == Closed ==>
              && e == Ordered(shown)[|shown| - 1] && Sum(ClosedQuantity, shown) == e.quantity
              && Remaining(Ordered(shown)) == 0
  {
    var life := Ordered(shown);
    OrderedMembers(shown);
    OrderedSums(shown);
    CoherentSums(life);
    LastCloses(life);
  }

  lemma LastCloses(life: seq<Event>)
    requires Coherent(life)
    ensures life[|life| - 1] in life
    ensures forall e :: e in life && e.kind == Closed ==> e == life[|life| - 1]
  {
    forall e | e in life && e.kind == Closed
      ensures e == life[|life| - 1]
    {
      var i :| 0 <= i < |life| && life[i] == e;
    }
  }

  lemma {:induction false} NonNegativeSums(s: seq<Event>)
    requires AllValid(s)
    ensures Sum(ReducedQuantity, s) >= 0 && Sum(OpenedQuantity, s) >= 0
    ensures Sum(OpenedQuantity, s) > 0 ==> exists e :: e in s && e.kind == Opened
  {
    if s == [] {
    } else {
      assert s[|s| - 1] in s;
      NonNegativeSums(s[..|s| - 1]);
    }
  }

  lemma SplitAt(events: seq<Event>, key: Id, c: nat)
    requires c < |events| && events[c].position == key
    ensures KeyEvents(events, key) == KeyEvents(events[..c], key) + [events[c]] + KeyEvents(events[c + 1..], key)
  {
    assert events == events[..c + 1] + events[c + 1..];
    assert events[..c + 1] == events[..c] + [events[c]];
    FilterConcat(ForPosition(key), events[..c + 1], events[c + 1..]);
    KeyEventsAppend(events[..c], events[c], key);
  }

  /** The opening of a closed position was appended before the close. */
  lemma OpenedBeforeClose(events: seq<Event>, c: nat)
    requires LedgerInvariant(events) && c < |events| && events[c].kind == Closed
    ensures KeyEvents(events, events[c].position) != []
    ensures Sum(OpenedQuantity, KeyEvents(events[..c], events[c].position))
         == OpeningOf(events, events[c].position).quantity
  {
    var key := events[c].position;
    var before, after := KeyEvents(events[..c], key), KeyEvents(events[c + 1..], key);
    SplitAt(events, key, c);
    NotOpenedAgain(events, c);
    SumConcat(OpenedQuantity, before + [events[c]], after);
    SumExtend(OpenedQuantity, before, events[c]);
    LifeOfKey(events, key);
    CoherentSums(Ordered(KeyEvents(events, key)));
    OrderedSums(KeyEvents(events, key));
  }

  lemma OpenerBefore(events: seq<Event>, c: nat) returns (o: Event)
    requires LedgerInvariant(events) && c < |events| && events[c].kind == Closed
    ensures o in events[..c] && o.position == events[c].position && o.kind == Opened
  {
    assert ClosedAsStored(events, c);
    var before := KeyEvents(events[..c], events[c].position);
    NonNegativeSums(before);
    o :| o in before && o.kind == Opened;
  }

  lemma NotOpenedAgain(events: seq<Event>, c: nat)
    requires LedgerInvariant(events) && c < |events| && events[c].kind == Closed
    ensures Sum(OpenedQuantity, KeyEvents(events[c + 1..], events[c].position)) == 0
  {
    var o := OpenerBefore(events, c);
    var after := KeyEvents(events[c + 1..], events[c].position);
    forall e | e in after
      ensures OpenedQuantity(e) == 0
    {
      OpenedOnce(events, c, o, e);
    }
    SumZero(OpenedQuantity, after);
  }

  lemma OpenedOnce(events: seq<Event>, c: nat, o: Event, e: Event)
    requires LedgerInvariant(events) && c < |events| && o in events[..c] && e in events[c + 1..]
    requires o.kind == Opened && e.position == o.position
    ensures e.kind != Opened
  {
    NotTwice(events, c, o, e);
    if e.kind == Opened {
      SameOpening(events, o, e);
    }
  }

  lemma SameOpening(events: seq<Event>, x: Event, y: Event)
    requires LedgerInvariant(events) && x in events && y in events
    requires x.kind == y.kind == Opened && x.position == y.position
    ensures x == y
  {
    var key := x.position;
    assert x in KeyEvents(events, key);
    OpeningIsUnique(events, key);
  }

  /** An event before index `c` and one behind it are different events. */
  lemma NotTwice(events: seq<Event>, c: nat, x: Event, y: Event)
    requires DistinctIds(events) && c < |events| && x in events[..c] && y in events[c + 1..]
    ensures x != y
  {
  }

  /** The reductions around a close, split by when they were appended and by whether (E, K) shows them. */
  lemma ReductionsAroundClose(events: seq<Event>, c: nat, effective: Moment, knowledge: Moment)
    requires c < |events| && events[c].kind == Closed
    ensures var key := events[c].position;
            && Sum(ReducedQuantity, VisibleKey(events, key, effective, knowledge))
               == ShownReduced(events[..c], key, effective, knowledge)
                + ShownReduced(events[c + 1..], key, effective, knowledge)
            && Sum(ReducedQuantity, KeyEvents(events[..c], key))
               == ShownReduced(events[..c], key, effective, knowledge)
                + HiddenReduced(events[..c], key, effective, knowledge)
  {
    var key := events[c].position;
    var before, after := KeyEvents(events[..c], key), KeyEvents(events[c + 1..], key);
    var shown := ShownAt(effective, knowledge);
    VisibleIsShown(events, key, effective, knowledge);
    SplitAt(events, key, c);
    FilterConcat(shown, before + [events[c]], after);
    FilterConcat(shown, before, [events[c]]);
    var middle := Filter(shown, [events[c]]);
    SumConcat(ReducedQuantity, Filter(shown, before) + middle, Filter(shown, after));
    SumConcat(ReducedQuantity, Filter(shown, before), middle);
    SumZero(ReducedQuantity, middle);
    SumSplit(ReducedQuantity, shown, HiddenAt(effective, knowledge), before);
  }

  /** Opened minus exited minus left open, of the events of one position. */
  ghost function Gap(shown: seq<Event>): int
    requires Coherent(Ordered(shown))
  {
    Ordered(shown)[0].quantity - Sum(ReducedQuantity, shown) - Sum(ClosedQuantity, shown) - Remaining(Ordered(shown))
  }

  /** The close at index `c` is visible at (E, K). */
  predicate CloseShown(events: seq<Event>, c: nat, key: Id, effective: Moment, knowledge: Moment) {
    c < |events| && events[c].kind == Closed && events[c] in VisibleKey(events, key, effective, knowledge)
  }

  lemma GapWithoutClose(events: seq<Event>, key: Id, effective: Moment, knowledge: Moment)
    requires LedgerInvariant(events) && VisibleKey(events, key, effective, knowledge) != []
    requires KeyEvents(events, key) != [] && OpeningOf(events, key).recordedAt <= knowledge
    requires forall c: nat :: !CloseShown(events, c, key, effective, knowledge)
    ensures Coherent(Ordered(VisibleKey(events, key, effective, knowledge)))
    ensures Gap(VisibleKey(events, key, effective, knowledge)) == 0
  {
    var shown := VisibleKey(events, key, effective, knowledge);
    NoCloseShown(events, key, effective, knowledge);
    ShownLife(events, key, effective, knowledge);
    NoGapWhileOpen(shown);
  }

  lemma NoGapWhileOpen(shown: seq<Event>)
    requires AllValid(shown) && Coherent(Ordered(shown)) && forall e :: e in shown ==> e.kind != Closed
    ensures Gap(shown) == 0
  {
    ClosedShown(shown);
  }

  lemma GapWithClose(events: seq<Event>, c: nat, key: Id, effective: Moment, knowledge: Moment)
    requires LedgerInvariant(events) && CloseShown(events, c, key, effective, knowledge)
    requires KeyEvents(events, key) != [] && OpeningOf(events, key).recordedAt <= knowledge
    ensures var shown := VisibleKey(events, key, effective, knowledge);
            && Coherent(Ordered(shown))
            && Gap(shown) == HiddenReduced(events[..c], key, effective, knowledge)
                           - ShownReduced(events[c + 1..], key, effective, knowledge)
            && Remaining(Ordered(shown)) == 0
            && Sum(ClosedQuantity, shown) == events[c].quantity > 0
  {
    ShownLife(events, key, effective, knowledge);
    ClosedShown(VisibleKey(events, key, effective, knowledge));
    OpenedBeforeClose(events, c);
    assert ClosedAsStored(events, c);
    ReductionsAroundClose(events, c, effective, knowledge);
  }

  /** Whenever the opening is visible, the unaccounted quantity is zero unless the close is visible too; then it
      is what had been reduced when the close was appended but is now hidden, minus what was reduced behind the
      close afterwards and is shown. */
  lemma UnaccountedExplained(events: seq<Event>, key: Id, effective: Moment, knowledge: Moment)
    requires LedgerInvariant(events) && VisibleKey(events, key, effective, knowledge) != []
    requires KeyEvents(events, key) != [] && OpeningOf(events, key).recordedAt <= knowledge
    ensures var entry := RoundTripFor(events, key, effective, knowledge);
            && ((forall c: nat :: !CloseShown(events, c, key, effective, knowledge)) ==> entry.unaccounted == 0)
            && (forall c: nat :: CloseShown(events, c, key, effective, knowledge) ==>
                  entry.unaccounted == HiddenReduced(events[..c], key, effective, knowledge)
                                     - ShownReduced(events[c + 1..], key, effective, knowledge))
  {
    EntryQuantities(events, key, effective, knowledge);
    if forall c: nat :: !CloseShown(events, c, key, effective, knowledge) {
      GapWithoutClose(events, key, effective, knowledge);
    }
    forall c: nat | CloseShown(events, c, key, effective, knowledge)
      ensures Gap(VisibleKey(events, key, effective, knowledge))
           == HiddenReduced(events[..c], key, effective, knowledge)
            - ShownReduced(events[c + 1..], key, effective, knowledge)
    {
      GapWithClose(events, c, key, effective, knowledge);
    }
  }

  /** A gap can only open once something has exited. */
  lemma GapNeedsExit(events: seq<Event>, key: Id, effective: Moment, knowledge: Moment)
    requires LedgerInvariant(events) && VisibleKey(events, key, effective, knowledge) != []
    requires KeyEvents(events, key) != [] && OpeningOf(events, key).recordedAt <= knowledge
    ensures var shown := VisibleKey(events, key, effective, knowledge);
            var exited := Sum(ReducedQuantity, shown) + Sum(ClosedQuantity, shown);
            && Coherent(Ordered(shown)) && exited >= 0 && (Gap(shown) != 0 ==> exited > 0)
  {
    var shown := VisibleKey(events, key, effective, knowledge);
    ShownLife(events, key, effective, knowledge);
    NonNegativeSums(shown);
    if c: nat :| CloseShown(events, c, key, effective, knowledge) {
      GapWithClose(events, c, key, effective, knowledge);
    } else {
      GapWithoutClose(events, key, effective, knowledge);
      ClosedShown(shown);
      NoCloseShown(events, key, effective, knowledge);
    }
  }

  lemma NoCloseShown(events: seq<Event>, key: Id, effective: Moment, knowledge: Moment)
    requires forall c: nat :: !CloseShown(events, c, key, effective, knowledge)
    ensures forall e :: e in VisibleKey(events, key, effective, knowledge) ==> e.kind != Closed
  {
    forall e | e in VisibleKey(events, key, effective, knowledge)
      ensures e.kind != Closed
    {
      var c :| 0 <= c < |events| && events[c] == e;
      assert !CloseShown(events, c, key, effective, knowledge);
    }
  }

  /** The statuses of a position that has exited something. */
  predicate SaysExited(status: RoundTripStatus) {
    status.PartialExitAsserted? || status.FullyExitedAsserted? || status.ExitQuantityUnreconciled?
  }

  lemma OpenedExitedIffStatus(events: seq<Event>, key: Id, effective: Moment, knowledge: Moment)
    requires LedgerInvariant(events) && VisibleKey(events, key, effective, knowledge) != []
    requires KeyEvents(events, key) != [] && OpeningOf(events, key).recordedAt <= knowledge
    ensures var entry := RoundTripFor(events, key, effective, knowledge);
            entry.result.Some? == entry.entryCost.Some? == SaysExited(entry.status)
  {
    var entry := RoundTripFor(events, key, effective, knowledge);
    EntryQuantities(events, key, effective, knowledge);
    GapNeedsExit(events, key, effective, knowledge);
    StatusSaysExited(entry.unaccounted, entry.exitedQuantity, entry.stillOpen > 0);
  }

  lemma StatusSaysExited(unaccounted: int, exited: int, isOpen: bool)
    requires exited >= 0 && (unaccounted != 0 ==> exited > 0)
    ensures SaysExited(Status(unaccounted, exited, isOpen)) <==> exited > 0
  {
  }

  /** On such ledgers a position has exited something exactly when its status says so. */
  lemma ExitedIffStatus(events: seq<Event>, key: Id, effective: Moment, knowledge: Moment)
    requires LedgerInvariant(events) && VisibleKey(events, key, effective, knowledge) != []
    ensures var entry := RoundTripFor(events, key, effective, knowledge);
            entry.result.Some? == entry.entryCost.Some? == SaysExited(entry.status)
  {
    VisibleLifeFolds(events, key, effective, knowledge);
    if OpeningOf(events, key).recordedAt <= knowledge {
      OpenedExitedIffStatus(events, key, effective, knowledge);
    } else {
      HiddenExitedIffStatus(events, key, effective, knowledge);
    }
  }

  lemma HiddenExitedIffStatus(events: seq<Event>, key: Id, effective: Moment, knowledge: Moment)
    requires VisibleKey(events, key, effective, knowledge) != []
    requires Fold(Ordered(VisibleKey(events, key, effective, knowledge))).Failure?
    ensures var entry := RoundTripFor(events, key, effective, knowledge);
            entry.result.Some? == entry.entryCost.Some? == SaysExited(entry.status)
  {
    UnresolvedEntry(Filter(UpTo(effective), EventsKnownBy(events, knowledge)), key, effective);
  }

  lemma UnresolvedEntry(visible: seq<Event>, key: Id, effective: Moment)
    requires Stamped(visible, effective) && KeyEvents(visible, key) != []
    requires Fold(Ordered(KeyEvents(visible, key))).Failure?
    ensures var entry := RoundTripAt(visible, key, effective);
            entry.status == UnresolvedSequence && entry.result == None && entry.entryCost == None
  {
    GroupIsOneKey(visible, key, effective);
  }

  // ----- full knowledge, no back-dating -----

  lemma KeyInOrder(events: seq<Event>, key: Id)
    requires IsSorted(OrderLeq, events)
    ensures Ordered(KeyEvents(events, key)) == KeyEvents(events, key)
  {
    OrderIsTotal();
    SortOfSorted(OrderLeq, events);
    SortFilter(OrderLeq, ForPosition(key), events);
  }

  /** In a log without back-dating, nothing of a position follows its close. */
  lemma NothingAfterClose(events: seq<Event>, c: nat)
    requires LedgerInvariant(events) && IsSorted(OrderLeq, events)
    requires c < |events| && events[c].kind == Closed
    ensures KeyEvents(events[c + 1..], events[c].position) == []
  {
    var key := events[c].position;
    var mine := KeyEvents(events, key);
    KeyInOrder(events, key);
    SplitAt(events, key, c);
    LifeOfKey(events, key);
    var i := |KeyEvents(events[..c], key)|;
    assert mine[i] == events[c];
  }

  /** With every event recorded by K and no back-dating, quantities are conserved at every E: what was opened is
      what has exited plus what is still open. */
  lemma QuantitiesConserved(events: seq<Event>, key: Id, effective: Moment, knowledge: Moment)
    requires LedgerInvariant(events) && IsSorted(OrderLeq, events)
    requires forall e :: e in events ==> e.recordedAt <= knowledge
    requires VisibleKey(events, key, effective, knowledge) != []
    ensures var entry := RoundTripFor(events, key, effective, knowledge);
            entry.openedQuantity == entry.exitedQuantity + entry.stillOpen && entry.openedQuantity > 0
  {
    var shown := VisibleKey(events, key, effective, knowledge);
    VisibleLifeFolds(events, key, effective, knowledge);
    OrderedMembers(KeyEvents(events, key));
    assert OpeningOf(events, key) in Ordered(KeyEvents(events, key));
    EntryQuantities(events, key, effective, knowledge);
    assert ValidEvent(OpeningOf(events, key));
    UnaccountedExplained(events, key, effective, knowledge);
    if c: nat :| CloseShown(events, c, key, effective, knowledge) {
      NothingAfterClose(events, c);
      NothingHidden(events, c, effective, knowledge);
    }
  }

  lemma NothingHidden(events: seq<Event>, c: nat, effective: Moment, knowledge: Moment)
    requires IsSorted(OrderLeq, events) && c < |events| && events[c].at <= effective
    requires forall e :: e in events ==> e.recordedAt <= knowledge
    ensures HiddenReduced(events[..c], events[c].position, effective, knowledge) == 0
  {
    var before := KeyEvents(events[..c], events[c].position);
    forall e | e in before
      ensures !HiddenAt(effective, knowledge)(e)
    {
      var i :| 0 <= i < c && events[i] == e;
      assert OrderLeq(events[i], events[c]);
    }
    FilterNone(HiddenAt(effective, knowledge), before);
  }

  /** The knowledge firewall: an event recorded after K, wherever it stands in the log, changes neither view. */
  lemma LateEvidenceInvisible(before: seq<Event>, late: Event, after: seq<Event>, effective: Moment, knowledge: Moment)
    requires late.recordedAt > knowledge
    ensures SnapshotOf(EventsKnownBy(before + [late] + after, knowledge), effective)
         == SnapshotOf(EventsKnownBy(before + after, knowledge), effective)
    ensures ReportOf(EventsKnownBy(before + [late] + after, knowledge), effective)
         == ReportOf(EventsKnownBy(before + after, knowledge), effective)
  {
    FilterConcat(KnownBy(knowledge), before + [late], after);
    FilterConcat(KnownBy(knowledge), before, [late]);
    FilterConcat(KnownBy(knowledge), before, after);
    FilterNone(KnownBy(knowledge), [late]);
    assert EventsKnownBy(before, knowledge) + [] == EventsKnownBy(before, knowledge);
  }
}
