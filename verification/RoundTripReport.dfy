/** What a round-trip entry and the whole report say, in terms of the visible events alone. */
module RoundTripReport {
  import opened Wrappers
  import opened Sorting
  import opened DecimalText
  import opened PositionFold
  import opened PositionLedger
  import opened PositionState
  import opened EvidenceAvailability
  import opened RoundTrip
  import opened RoundTripAccounting
  import opened PositionReport

  // ----- the status of one entry -----

  /** The status of an entry that folds is decided by its three quantities, one status for every case. */
  lemma StatusDecided(visible: seq<Event>, key: Id, effective: Moment)
    requires AllValid(visible) && Stamped(visible, effective) && KeyEvents(visible, key) != []
    requires Fold(Life(visible, key)).Success?
    ensures var entry := RoundTripAt(visible, key, effective);
            var bought, exited, left := entry.openedQuantity, entry.exitedQuantity, entry.stillOpen;
            && (entry.status == ExitQuantityUnreconciled <==> bought != exited + left)
            && (entry.status == NoExitAssertedYet <==> bought == exited + left && exited == 0)
            && (entry.status == PartialExitAsserted <==> bought == exited + left && exited > 0 && left > 0)
            && (entry.status == FullyExitedAsserted <==> bought == exited && exited > 0 && left == 0)
  {
    var life := Life(visible, key);
    LifeValid(visible, key);
    FoldCharacterised(life);
    FoldedEntry(visible, key, effective);
    ExitedNotNegative(KeyEvents(visible, key));
    var mine := KeyEvents(visible, key);
    ResolvedFields(key, mine, OpeningIn(mine), DeriveOne(key, life).value);
    StatusMeans(OpeningIn(mine).quantity, Sum(QuantityIn, Filter(IsExit, mine)), Remaining(life));
  }

  lemma StatusMeans(bought: int, exited: int, left: int)
    requires exited >= 0 && left >= 0
    ensures var status := Status(bought - exited - left, exited, left > 0);
            && (status == ExitQuantityUnreconciled <==> bought != exited + left)
            && (status == NoExitAssertedYet <==> bought == exited + left && exited == 0)
            && (status == PartialExitAsserted <==> bought == exited + left && exited > 0 && left > 0)
            && (status == FullyExitedAsserted <==> bought == exited && exited > 0 && left == 0)
  {
  }

  lemma ExitedNotNegative(mine: seq<Event>)
    requires AllValid(mine)
    ensures Sum(QuantityIn, Filter(IsExit, mine)) >= 0
  {
    SumNotNegative(QuantityIn, Filter(IsExit, mine));
  }

  lemma {:induction false} SumNotNegative<T>(measure: T -> int, s: seq<T>)
    requires forall x :: x in s ==> measure(x) >= 0
    ensures Sum(measure, s) >= 0
  {
    if s == [] {
    } else {
      SumNotNegative(measure, s[..|s| - 1]);
    }
  }

  /** An entry that does not fold says so, with the fold's reason, and computes nothing. */
  lemma UnresolvedReported(visible: seq<Event>, key: Id, effective: Moment)
    requires Stamped(visible, effective) && KeyEvents(visible, key) != []
    ensures var entry, folded := RoundTripAt(visible, key, effective), Fold(Life(visible, key));
            && (entry.status == UnresolvedSequence <==> folded.Failure?)
            && entry.position == key && entry.symbol == KeyEvents(visible, key)[0].symbol
            && entry.visibleCount == |KeyEvents(visible, key)|
            && (folded.Failure? ==>
                  && entry.openedQuantity == entry.exitedQuantity == entry.stillOpen == entry.unaccounted == 0
                  && entry.entryPrice == entry.entryCost == entry.exitConsideration == entry.result == None
                  && entry.exitCount == 0 && entry.reason == Some(folded.error))
            && (folded.Success? ==> entry.reason == None)
  {
    GroupIsOneKey(visible, key, effective);
    if Fold(Life(visible, key)).Success? {
      FoldedEntry(visible, key, effective);
    }
  }

  // ----- the quantities and the money of one entry -----

  predicate IsOpening(e: Event) {
    e.kind == Opened
  }

  /** A coherent life opens once, in front. */
  lemma OneOpening(mine: seq<Event>)
    requires Coherent(Ordered(mine))
    ensures multiset(Filter(IsOpening, mine)) == multiset{Ordered(mine)[0]}
    ensures |Filter(IsOpening, mine)| == 1 && Filter(IsOpening, mine)[0] == Ordered(mine)[0]
  {
    var life := Ordered(mine);
    FilterMultiset(IsOpening, life, mine);
    FirstOnly(life);
    var openings := Filter(IsOpening, mine);
    assert multiset(openings) == multiset{life[0]};
    assert |openings| == |multiset(openings)| == 1;
    assert openings[0] in multiset(openings);
  }

  lemma FirstOnly(life: seq<Event>)
    requires Coherent(life)
    ensures Filter(IsOpening, life) == [life[0]]
  {
    assert life == [life[0]] + life[1..];
    FilterConcat(IsOpening, [life[0]], life[1..]);
    FilterNone(IsOpening, life[1..]);
    assert [life[0]][..0] == [];
  }

  /** Everything but the opening: sums over exits are sums over all events less the opening's. */
  lemma ExitsAreTheRest(measure: Event -> int, mine: seq<Event>)
    requires Coherent(Ordered(mine))
    ensures Sum(measure, Filter(IsExit, mine)) == Sum(measure, mine) - measure(Ordered(mine)[0])
  {
    var openings := Filter(IsOpening, mine);
    OneOpening(mine);
    SumSplit(measure, IsExit, IsOpening, mine);
    assert openings == [Ordered(mine)[0]] && openings[..0] == [];
    assert Sum(measure, openings) == Sum(measure, openings[..0]) + measure(openings[0]);
  }

  lemma {:induction false} CountSplit(mine: seq<Event>)
    ensures |Filter(IsExit, mine)| + |Filter(IsOpening, mine)| == |mine|
  {
    if mine == [] {
    } else {
      CountSplit(mine[..|mine| - 1]);
    }
  }

  /** What is exited, at what prices: every event but the opening counts, and the texts are exact. */
  lemma MoneyReported(visible: seq<Event>, key: Id, effective: Moment, units: int, exited: int, cost: int,
                      proceeds: int, gain: int)
    requires AllValid(visible) && Stamped(visible, effective) && KeyEvents(visible, key) != []
    requires Fold(Life(visible, key)).Success? && Coherent(Life(visible, key))
    requires units == PriceUnits(Life(visible, key)[0])
    requires exited == Sum(QuantityIn, KeyEvents(visible, key)) - Life(visible, key)[0].quantity
    requires cost == exited * units
    requires proceeds == Sum(Consideration, KeyEvents(visible, key)) - Consideration(Life(visible, key)[0])
    requires gain == proceeds - cost
    ensures TellsLife(RoundTripAt(visible, key, effective), Life(visible, key), units, exited, cost, proceeds, gain)
  {
    EntryIsResolved(visible, key, effective);
    var position := DeriveOne(key, Life(visible, key)).value;
    ResolvedTells(key, KeyEvents(visible, key), position, units, exited, cost, proceeds, gain);
  }

  lemma ResolvedTells(key: Id, mine: seq<Event>, position: DerivedPosition, units: int, exited: int, cost: int,
                      proceeds: int, gain: int)
    requires AllValid(mine) && mine != [] && Coherent(Ordered(mine))
    requires position.openQuantity == Remaining(Ordered(mine)) && units == PriceUnits(Ordered(mine)[0])
    requires exited == Sum(QuantityIn, mine) - Ordered(mine)[0].quantity && cost == exited * units
    requires proceeds == Sum(Consideration, mine) - Consideration(Ordered(mine)[0]) && gain == proceeds - cost
    ensures TellsLife(Resolved(key, mine, Ordered(mine)[0], position), Ordered(mine), units, exited, cost, proceeds,
                      gain)
  {
    RestOfLife(mine);
    ExitsTell(key, mine, Ordered(mine), position, units, |Filter(IsExit, mine)|, exited, cost, proceeds, gain);
  }

  lemma ExitsTell(key: Id, mine: seq<Event>, life: seq<Event>, position: DerivedPosition, units: int, exits: nat,
                  exited: int, cost: int, proceeds: int, gain: int)
    requires mine != [] && Coherent(life) && position.openQuantity == Remaining(life)
    requires units == PriceUnits(life[0]) && exits == |Filter(IsExit, mine)| == |life| - 1
    requires exited == Sum(QuantityIn, Filter(IsExit, mine)) >= 0 && cost == exited * units
    requires proceeds == Sum(Consideration, Filter(IsExit, mine)) && gain == proceeds - cost
    ensures TellsLife(Resolved(key, mine, life[0], position), life, units, exited, cost, proceeds, gain)
  {
    ResolvedMoney(key, mine, life[0], position, units, exits, exited, cost, proceeds, gain);
    AccountsTell(Resolved(key, mine, life[0], position), life, position, units, exits, exited, cost, proceeds, gain);
  }
  /** The fields of an entry, given the opening's price, the quantity exited, and what that cost and brought. */
  ghost predicate TellsLife(entry: RoundTripEntry, life: seq<Event>, units: int, exited: int, cost: int, proceeds: int,
                            gain: int)
    requires Coherent(life)
  {
    && entry.openedQuantity == life[0].quantity && entry.stillOpen == Remaining(life)
    && entry.exitedQuantity == exited >= 0 && entry.exitCount == |life| - 1
    && entry.unaccounted == life[0].quantity - exited - Remaining(life)
    && MoneyIs(entry.entryPrice, units)
    && (exited == 0 ==> entry.entryCost == entry.exitConsideration == entry.result == None)
    && (exited > 0 ==>
          && MoneyIs(entry.entryCost, cost) && MoneyIs(entry.exitConsideration, proceeds)
          && MoneyIs(entry.result, gain))
  }

  lemma AccountsTell(entry: RoundTripEntry, life: seq<Event>, position: DerivedPosition, units: int, exits: nat,
                     exited: int, cost: int, proceeds: int, gain: int)
    requires Coherent(life) && position.openQuantity == Remaining(life) && exits == |life| - 1 && exited >= 0
    requires Accounts(entry, life[0], position, units, exits, exited, cost, proceeds, gain)
    ensures TellsLife(entry, life, units, exited, cost, proceeds, gain)
  {
  }

  lemma EntryIsResolved(visible: seq<Event>, key: Id, effective: Moment)
    requires AllValid(visible) && Stamped(visible, effective) && KeyEvents(visible, key) != []
    requires Fold(Life(visible, key)).Success?
    ensures var life, position := Life(visible, key), DeriveOne(key, Life(visible, key)).value;
            && Coherent(life) && position.openQuantity == Remaining(life)
            && RoundTripAt(visible, key, effective) == Resolved(key, KeyEvents(visible, key), life[0], position)
  {
    LifeValid(visible, key);
    FoldCharacterised(Life(visible, key));
    FoldedEntry(visible, key, effective);
    OpeningInFront(KeyEvents(visible, key));
  }

  lemma RestOfLife(mine: seq<Event>)
    requires AllValid(mine) && Coherent(Ordered(mine))
    ensures |Filter(IsExit, mine)| == |mine| - 1 == |Ordered(mine)| - 1
    ensures Sum(QuantityIn, Filter(IsExit, mine)) == Sum(QuantityIn, mine) - Ordered(mine)[0].quantity >= 0
    ensures Sum(Consideration, Filter(IsExit, mine)) == Sum(Consideration, mine) - Consideration(Ordered(mine)[0])
  {
    ExitsAreTheRest(QuantityIn, mine);
    ExitsAreTheRest(Consideration, mine);
    CountSplit(mine);
    OneOpening(mine);
    ExitedNotNegative(mine);
  }

  /** The text of exactly this amount. */
  predicate MoneyIs(text: Option<string>, amount: int) {
    text.Some? && ScaledFromMoney(text.value) == Some(amount)
  }

  lemma OpeningInFront(mine: seq<Event>)
    requires Coherent(Ordered(mine)) && exists e :: e in mine && e.kind == Opened
    ensures OpeningIn(mine) == Ordered(mine)[0]
  {
    var openings, o := Filter(IsOpening, mine), OpeningIn(mine);
    OneOpening(mine);
    assert o in openings;
    var i :| 0 <= i < |openings| && openings[i] == o;
  }

  lemma ResolvedMoney(key: Id, mine: seq<Event>, opening: Event, position: DerivedPosition, units: int, exits: nat,
                      exited: int, cost: int, proceeds: int, gain: int)
    requires mine != [] && units == PriceUnits(opening) && exits == |Filter(IsExit, mine)|
    requires exited == Sum(QuantityIn, Filter(IsExit, mine)) && cost == exited * units
    requires proceeds == Sum(Consideration, Filter(IsExit, mine)) && gain == proceeds - cost
    ensures Accounts(Resolved(key, mine, opening, position), opening, position, units, exits, exited, cost, proceeds,
                     gain)
  {
    AccountedMoney(key, mine, opening, position, units, exits, exited, cost, proceeds, gain);
  }

  predicate Accounts(entry: RoundTripEntry, opening: Event, position: DerivedPosition, units: int, exits: nat,
                     exited: int, cost: int, proceeds: int, gain: int) {
    && entry.openedQuantity == opening.quantity && entry.stillOpen == position.openQuantity
    && entry.exitedQuantity == exited && entry.exitCount == exits
    && entry.unaccounted == opening.quantity - exited - position.openQuantity
    && MoneyIs(entry.entryPrice, units)
    && (exited <= 0 ==> entry.entryCost == entry.exitConsideration == entry.result == None)
    && (exited > 0 ==>
          MoneyIs(entry.entryCost, cost) && MoneyIs(entry.exitConsideration, proceeds) && MoneyIs(entry.result, gain))
  }

  lemma AccountedMoney(key: Id, mine: seq<Event>, opening: Event, position: DerivedPosition, units: int, exits: nat,
                       exited: int, cost: int, proceeds: int, gain: int)
    requires mine != [] && gain == proceeds - cost
    ensures Accounts(Accounted(key, mine, opening, position, units, exits, exited, cost, proceeds), opening, position,
                     units, exits, exited, cost, proceeds, gain)
  {
    MoneyRoundTrip(units);
    MoneyRoundTrip(cost);
    MoneyRoundTrip(proceeds);
    MoneyRoundTrip(gain);
  }

  // ----- the whole report -----

  ghost function TripHas(visible: seq<Event>, effective: Moment, status: RoundTripStatus): Id -> bool
    requires Stamped(visible, effective)
  {
    (k: Id) => KeyEvents(visible, k) != [] && RoundTripAt(visible, k, effective).status == status
  }

  /** The visible keys whose entry has this status. */
  ghost function KeysWith(visible: seq<Event>, effective: Moment, status: RoundTripStatus): set<Id>
    requires Stamped(visible, effective)
  {
    Chosen(TripHas(visible, effective, status), KeysInOrder(visible))
  }

  lemma CountedByKeys(known: seq<Event>, effective: Moment, status: RoundTripStatus)
    ensures Stamped(Filter(UpTo(effective), known), effective)
    ensures CountWith(status, ReportOf(known, effective).entries)
         == |KeysWith(Filter(UpTo(effective), known), effective, status)|
  {
    GroupedByKey(known, effective);
    CountAfterSort(RoundTripLeq, WithStatus(status), UnsortedRoundTrips(known, effective));
    TripsByKeys(Filter(UpTo(effective), known), KeysInOrder(Filter(UpTo(effective), known)), effective, status);
  }

  lemma TripsByKeys(visible: seq<Event>, keys: seq<Id>, effective: Moment, status: RoundTripStatus)
    requires Stamped(visible, effective) && forall k :: k in keys ==> KeyEvents(visible, k) != []
    requires forall i, j :: 0 <= i < j < |keys| ==> keys[i] != keys[j]
    ensures CountWith(status, RoundTripsOf(visible, keys, effective))
         == |Chosen(TripHas(visible, effective, status), keys)|
  {
    var entries := RoundTripsOf(visible, keys, effective);
    forall i | 0 <= i < |keys|
      ensures WithStatus(status)(entries[i]) == TripHas(visible, effective, status)(keys[i])
    {
      assert keys[i] in keys;
    }
    CountOfKeys(WithStatus(status), entries, TripHas(visible, effective, status), keys);
  }

  /** The report counts the known events, those stamped by E, and the visible keys of each status. */
  lemma ReportCounts(known: seq<Event>, effective: Moment)
    ensures Stamped(Filter(UpTo(effective), known), effective)
    ensures var r, visible := ReportOf(known, effective), Filter(UpTo(effective), known);
            && (r.outcome == NothingRecorded <==> known == []) && (r.outcome == ReportAvailable <==> known != [])
            && r.knownCount == |known| && r.visibleCount == |set i | 0 <= i < |known| && known[i].at <= effective|
            && r.excludedByEffective == r.knownCount - r.visibleCount
            && r.noExitCount == |KeysWith(visible, effective, NoExitAssertedYet)|
            && r.partialCount == |KeysWith(visible, effective, PartialExitAsserted)|
            && r.fullCount == |KeysWith(visible, effective, FullyExitedAsserted)|
            && r.unreconciledCount == |KeysWith(visible, effective, ExitQuantityUnreconciled)|
            && r.unresolvedCount == |KeysWith(visible, effective, UnresolvedSequence)|
  {
    ConsideredCount(known, effective);
    CountedByKeys(known, effective, NoExitAssertedYet);
    CountedByKeys(known, effective, PartialExitAsserted);
    CountedByKeys(known, effective, FullyExitedAsserted);
    CountedByKeys(known, effective, ExitQuantityUnreconciled);
    CountedByKeys(known, effective, UnresolvedSequence);
  }

  /** Entries are listed by instrument, then by position. */
  predicate ByInstrument(entries: seq<RoundTripEntry>) {
    forall i, j :: 0 <= i < j < |entries| ==>
      entries[i].symbol < entries[j].symbol
      || (entries[i].symbol == entries[j].symbol && entries[i].position <= entries[j].position)
  }

  lemma ReportInOrder(known: seq<Event>, effective: Moment)
    ensures ByInstrument(ReportOf(known, effective).entries)
  {
    SortedTrips(UnsortedRoundTrips(known, effective), ReportOf(known, effective).entries);
  }

  lemma SortedTrips(unsorted: seq<RoundTripEntry>, entries: seq<RoundTripEntry>)
    requires entries == Sort(RoundTripLeq, unsorted)
    ensures ByInstrument(entries)
  {
    SortSorted(RoundTripLeq, unsorted);
    forall i, j | 0 <= i < j < |entries|
      ensures entries[i].symbol < entries[j].symbol
              || (entries[i].symbol == entries[j].symbol && entries[i].position <= entries[j].position)
    {
      assert RoundTripLeq(entries[i], entries[j]);
    }
  }
}
