/** The asserted round trip of each position: exact integer arithmetic over its visible exits. */
module RoundTrip {
  import opened Wrappers
  import opened Sorting
  import opened DecimalText
  import opened PositionFold
  import opened PositionLedger
  import opened PositionState
  import opened EvidenceAvailability

  datatype RoundTripStatus =
    | NoExitAssertedYet
    | PartialExitAsserted
    | FullyExitedAsserted
    | ExitQuantityUnreconciled
    | UnresolvedSequence

  datatype RoundTripEntry = RoundTripEntry(
    position: Id,
    symbol: Id,
    status: RoundTripStatus,
    openedQuantity: int,
    exitedQuantity: int,
    stillOpen: int,
    unaccounted: int,
    entryPrice: Option<string>,
    entryCost: Option<string>,
    exitConsideration: Option<string>,
    result: Option<string>,
    exitCount: nat,
    visibleCount: nat,
    reason: Option<Rejection>)

  predicate IsExit(e: Event) {
    e.kind != Opened
  }

  function QuantityIn(e: Event): int {
    e.quantity
  }

  /** Quantity times price, in 10^-6 units. */
  function Consideration(e: Event): int {
    e.quantity * PriceUnits(e)
  }

  /** The first opening listed. */
  function OpeningIn(events: seq<Event>): (r: Event)
    requires exists e :: e in events && e.kind == Opened
    ensures r in events && r.kind == Opened
  {
    if events[0].kind == Opened then events[0] else OpeningIn(events[1..])
  }

  lemma FoldedHasOpening(events: seq<Event>)
    requires Fold(Ordered(events)).Success?
    ensures Ordered(events) != [] && Ordered(events)[0] in events && Ordered(events)[0].kind == Opened
    ensures exists e :: e in events && e.kind == Opened
  {
    SameSymbol(Ordered(events));
    OrderedMembers(events);
    assert Ordered(events)[0] in Ordered(events);
  }

  function Status(unaccounted: int, exited: int, isOpen: bool): RoundTripStatus {
    if unaccounted != 0 then ExitQuantityUnreconciled
    else if exited == 0 then NoExitAssertedYet
    else if isOpen then PartialExitAsserted
    else FullyExitedAsserted
  }

  function Unresolved(key: Id, events: seq<Event>, reason: Rejection): RoundTripEntry
    requires events != []
  {
    RoundTripEntry(
      key, events[0].symbol, UnresolvedSequence, 0, 0, 0, 0, None, None, None, None, 0, |events|, Some(reason))
  }

  function Resolved(key: Id, events: seq<Event>, opening: Event, position: DerivedPosition): RoundTripEntry
    requires events != []
  {
    var exits, units := Filter(IsExit, events), PriceUnits(opening);
    var exited := Sum(QuantityIn, exits);
    Accounted(key, events, opening, position, units, |exits|, exited, exited * units, Sum(Consideration, exits))
  }

  /** The entry for exits of `exited` in all, bought for `cost` and sold for `consideration`. */
  function Accounted(key: Id, events: seq<Event>, opening: Event, position: DerivedPosition, units: int, exits: nat,
                     exited: int, cost: int, consideration: int): RoundTripEntry
    requires events != []
  {
    var unaccounted := opening.quantity - exited - position.openQuantity;
    RoundTripEntry(
      key, events[0].symbol, Status(unaccounted, exited, position.isOpen),
      opening.quantity, exited, position.openQuantity, unaccounted,
      Some(MoneyFromScaled(units)),
      if exited > 0 then Some(MoneyFromScaled(cost)) else None,
      if exited > 0 then Some(MoneyFromScaled(consideration)) else None,
      if exited > 0 then Some(MoneyFromScaled(consideration - cost)) else None,
      exits, |events|, None)
  }

  function RoundTripOf(key: Id, events: seq<Event>, effective: Moment): RoundTripEntry
    requires OneKey(key, events, effective)
  {
    match FoldOneKey(key, events, effective)
    case Failure(reason) => Unresolved(key, events, reason)
    case Success(position) =>
      FoldedHasOpening(events);
      Resolved(key, events, OpeningIn(events), position)
  }

  function RoundTripAt(visible: seq<Event>, key: Id, effective: Moment): RoundTripEntry
    requires Stamped(visible, effective) && KeyEvents(visible, key) != []
  {
    GroupIsOneKey(visible, key, effective);
    RoundTripOf(key, KeyEvents(visible, key), effective)
  }

  /** The entry for `key` at (E, K). */
  function RoundTripFor(events: seq<Event>, key: Id, effective: Moment, knowledge: Moment): RoundTripEntry
    requires VisibleKey(events, key, effective, knowledge) != []
  {
    RoundTripAt(Filter(UpTo(effective), EventsKnownBy(events, knowledge)), key, effective)
  }

  // ----- the report -----

  datatype ReportOutcome = ReportAvailable | NothingRecorded | ReportWithheld

  datatype Report = Report(
    outcome: ReportOutcome,
    knownCount: nat,
    visibleCount: nat,
    excludedByEffective: nat,
    noExitCount: nat,
    partialCount: nat,
    fullCount: nat,
    unreconciledCount: nat,
    unresolvedCount: nat,
    entries: seq<RoundTripEntry>)

  predicate RoundTripLeq(a: RoundTripEntry, b: RoundTripEntry) {
    a.symbol < b.symbol || (a.symbol == b.symbol && a.position <= b.position)
  }

  function WithStatus(status: RoundTripStatus): RoundTripEntry -> bool {
    (e: RoundTripEntry) => e.status == status
  }

  function CountWith(status: RoundTripStatus, entries: seq<RoundTripEntry>): nat {
    |Filter(WithStatus(status), entries)|
  }

  function RoundTripsOf(visible: seq<Event>, keys: seq<Id>, effective: Moment): (r: seq<RoundTripEntry>)
    requires Stamped(visible, effective) && forall k :: k in keys ==> KeyEvents(visible, k) != []
    ensures |r| == |keys|
    ensures forall i :: 0 <= i < |keys| ==> r[i] == RoundTripAt(visible, keys[i], effective)
  {
    seq(|keys|, i requires 0 <= i < |keys| => RoundTripAt(visible, keys[i], effective))
  }

  function UnsortedRoundTrips(known: seq<Event>, effective: Moment): seq<RoundTripEntry> {
    GroupedByKey(known, effective);
    RoundTripsOf(Filter(UpTo(effective), known), KeysInOrder(Filter(UpTo(effective), known)), effective)
  }

  function Tabulated(known: nat, visible: nat, entries: seq<RoundTripEntry>): Report
    requires visible <= known
  {
    Report(if known == 0 then NothingRecorded else ReportAvailable, known, visible, known - visible,
           CountWith(NoExitAssertedYet, entries), CountWith(PartialExitAsserted, entries),
           CountWith(FullyExitedAsserted, entries), CountWith(ExitQuantityUnreconciled, entries),
           CountWith(UnresolvedSequence, entries), entries)
  }

  /** The specification of `ReportFromKnownEvidence`; without known evidence it is empty. */
  function ReportOf(known: seq<Event>, effective: Moment): Report {
    Tabulated(|known|, |Filter(UpTo(effective), known)|, Sort(RoundTripLeq, UnsortedRoundTrips(known, effective)))
  }

  lemma RoundTripsExtend(visible: seq<Event>, keys: seq<Id>, key: Id, effective: Moment)
    requires Stamped(visible, effective) && forall k :: k in keys + [key] ==> KeyEvents(visible, k) != []
    ensures forall k :: k in keys ==> KeyEvents(visible, k) != []
    ensures key in keys + [key] && KeyEvents(visible, key) != []
    ensures RoundTripsOf(visible, keys + [key], effective)
         == RoundTripsOf(visible, keys, effective) + [RoundTripAt(visible, key, effective)]
  {
    assert key in keys + [key];
    var longer, shorter := RoundTripsOf(visible, keys + [key], effective), RoundTripsOf(visible, keys, effective);
    forall i | 0 <= i < |keys|
      ensures longer[i] == shorter[i]
    {
      assert (keys + [key])[i] == keys[i];
    }
    LastAppended(longer, shorter);
  }

  /** One key: derive its position, then reconcile its visible exits. */
  method EntryForKey(visible: seq<Event>, key: Id, events: seq<Event>, effective: Moment) returns (e: RoundTripEntry)
    requires Stamped(visible, effective) && events == KeyEvents(visible, key) && events != []
    ensures e == RoundTripAt(visible, key, effective)
  {
    GroupIsOneKey(visible, key, effective);
    SingleKeyState(key, events, effective);
    var state := DerivePositionState(events, effective, true);
    match state {
      case Failure(reason) =>
        e := Unresolved(key, events, reason);
      case Success(derived) =>
        SummaryOfOne(DeriveOne(key, Ordered(events)).value, |events|);
        FoldedHasOpening(events);
        e := Resolved(key, events, OpeningIn(events), (derived.open + derived.closed)[0]);
    }
  }

  method CollectRoundTrips(visible: seq<Event>, keys: seq<Id>, groups: map<Id, seq<Event>>, effective: Moment)
    returns (entries: seq<RoundTripEntry>)
    requires Stamped(visible, effective)
    requires forall k :: k in keys ==> k in groups && groups[k] == KeyEvents(visible, k) != []
    ensures entries == RoundTripsOf(visible, keys, effective)
  {
    entries := [];
    var i := 0;
    while i < |keys|
      invariant 0 <= i <= |keys| && entries == RoundTripsOf(visible, keys[..i], effective)
    {
      assert keys[..i + 1] == keys[..i] + [keys[i]];
      RoundTripsExtend(visible, keys[..i], keys[i], effective);
      var entry := EntryForKey(visible, keys[i], groups[keys[i]], effective);
      entries := entries + [entry];
      i := i + 1;
    }
    assert keys[..i] == keys;
  }

  method ReportFromKnownEvidence(known: seq<Event>, effective: Moment) returns (r: Report)
    ensures r == ReportOf(known, effective)
  {
    var visible := Filter(UpTo(effective), known);
    GroupedByKey(known, effective);
    var keys, groups := GroupByPosition(visible);
    var entries := CollectRoundTrips(visible, keys, groups, effective);
    r := Tabulated(|known|, |visible|, Sort(RoundTripLeq, entries));
  }

  const WITHHELD_REPORT := Report(ReportWithheld, 0, 0, 0, 0, 0, 0, 0, 0, [])

  /** As for the snapshot: raises without time zones, withheld when the ledger cannot be read. */
  method BuildReport(events: seq<Event>, effective: Moment, knowledge: Moment, aware: bool, ledgerAvailable: bool)
    returns (r: Option<Report>)
    ensures r == None <==> !aware
    ensures aware && ledgerAvailable ==> r == Some(ReportOf(EventsKnownBy(events, knowledge), effective))
    ensures aware && !ledgerAvailable ==> r == Some(WITHHELD_REPORT)
  {
    if !aware {
      return None;
    }
    if !ledgerAvailable {
      return Some(WITHHELD_REPORT);
    }
    var report := ReportFromKnownEvidence(EventsKnownBy(events, knowledge), effective);
    r := Some(report);
  }

  // ----- the two views agree -----

  /** For every key, on any valid evidence: unresolved together and for the same reason; and the position is
      known open exactly when some quantity is still open. */
  lemma ViewsAgree(visible: seq<Event>, key: Id, effective: Moment)
    requires AllValid(visible) && Stamped(visible, effective) && KeyEvents(visible, key) != []
    ensures var held, trip := EntryAt(visible, key, effective), RoundTripAt(visible, key, effective);
            && held.position == trip.position == key && held.symbol == trip.symbol
            && held.reason == trip.reason && held.visibleCount == trip.visibleCount
            && (held.status == UnresolvedKnowledgeSequence <==> trip.status == UnresolvedSequence)
            && (held.status == KnownOpen <==> trip.stillOpen > 0)
            && (held.status == KnownClosed ==> trip.stillOpen == 0)
  {
    var mine := KeyEvents(visible, key);
    GroupIsOneKey(visible, key, effective);
    if Fold(Ordered(mine)).Success? {
      OpenMeansQuantity(mine);
    }
  }

  /** A fold says open exactly when a quantity is, and otherwise nothing is. */
  lemma OpenMeansQuantity(mine: seq<Event>)
    requires AllValid(mine) && Fold(Ordered(mine)).Success?
    ensures var folded := Fold(Ordered(mine)).value;
            folded.quantity >= 0 && (folded.isOpen <==> folded.quantity > 0)
  {
    OrderedMembers(mine);
    FoldCharacterised(Ordered(mine));
  }

  ghost predicate InReport(known: seq<Event>, effective: Moment, key: Id) {
    exists x :: x in ReportOf(known, effective).entries && x.position == key
  }

  ghost predicate InSnapshot(known: seq<Event>, effective: Moment, key: Id) {
    exists x :: x in SnapshotOf(known, effective).entries && x.position == key
  }

  lemma ListedInReport(known: seq<Event>, effective: Moment, key: Id)
    ensures InReport(known, effective, key) <==> KeyEvents(Filter(UpTo(effective), known), key) != []
  {
    var visible := Filter(UpTo(effective), known);
    if x :| x in ReportOf(known, effective).entries && x.position == key {
      ReportMembership(known, effective, x);
    }
    if KeyEvents(visible, key) != [] {
      GroupedByKey(known, effective);
      TripPosition(visible, key, effective);
      ReportMembership(known, effective, RoundTripAt(visible, key, effective));
    }
  }

  lemma ListedInSnapshot(known: seq<Event>, effective: Moment, key: Id)
    ensures InSnapshot(known, effective, key) <==> KeyEvents(Filter(UpTo(effective), known), key) != []
  {
    var visible := Filter(UpTo(effective), known);
    if x :| x in SnapshotOf(known, effective).entries && x.position == key {
      EntryMembership(known, effective, x);
    }
    if KeyEvents(visible, key) != [] {
      GroupedByKey(known, effective);
      EntryPosition(visible, key, effective);
      EntryMembership(known, effective, EntryAt(visible, key, effective));
    }
  }

  /** Both views list exactly the visible keys, once each. */
  lemma SameKeysListed(known: seq<Event>, effective: Moment)
    ensures forall key :: InReport(known, effective, key) <==> InSnapshot(known, effective, key)
    ensures |ReportOf(known, effective).entries| == |SnapshotOf(known, effective).entries|
  {
    forall key: Id | true
      ensures InReport(known, effective, key) <==> InSnapshot(known, effective, key)
    {
      ListedInReport(known, effective, key);
      ListedInSnapshot(known, effective, key);
    }
    EveryKeyCounted(known, effective);
  }

  lemma TripPosition(visible: seq<Event>, key: Id, effective: Moment)
    requires Stamped(visible, effective) && KeyEvents(visible, key) != []
    ensures RoundTripAt(visible, key, effective).position == key
  {
  }

  lemma ListedTrip(visible: seq<Event>, keys: seq<Id>, effective: Moment, x: RoundTripEntry)
    requires Stamped(visible, effective) && forall k :: k in keys ==> KeyEvents(visible, k) != []
    ensures x in RoundTripsOf(visible, keys, effective)
       <==> x.position in keys && x == RoundTripAt(visible, x.position, effective)
  {
    var entries := RoundTripsOf(visible, keys, effective);
    if x in entries {
      var i :| 0 <= i < |entries| && entries[i] == x;
      TripPosition(visible, keys[i], effective);
      assert keys[i] in keys;
    }
    if x.position in keys {
      var i :| 0 <= i < |keys| && keys[i] == x.position;
      assert entries[i] == RoundTripAt(visible, x.position, effective);
    }
  }

  /** `x` is the entry of a visible key. */
  ghost predicate IsTrip(known: seq<Event>, effective: Moment, x: RoundTripEntry) {
    var visible := Filter(UpTo(effective), known);
    && Stamped(visible, effective) && KeyEvents(visible, x.position) != []
    && x == RoundTripAt(visible, x.position, effective)
  }

  lemma ReportMembership(known: seq<Event>, effective: Moment, x: RoundTripEntry)
    ensures Stamped(Filter(UpTo(effective), known), effective)
    ensures x in ReportOf(known, effective).entries <==> IsTrip(known, effective, x)
  {
    var visible := Filter(UpTo(effective), known);
    GroupedByKey(known, effective);
    InSort(RoundTripLeq, UnsortedRoundTrips(known, effective), x);
    ListedTrip(visible, KeysInOrder(visible), effective, x);
  }
}
