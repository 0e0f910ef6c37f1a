/** The point-in-time snapshot: what the ledger recorded by a knowledge cutoff K about what happened by an
    effective cutoff E. Each position is folded on its own, so one that does not fold withholds only itself. */
module EvidenceAvailability {
  import opened Wrappers
  import DecimalText
  import opened Sorting
  import opened PositionFold
  import opened PositionLedger
  import opened PositionState

  datatype KnownStatus = KnownOpen | KnownClosed | UnresolvedKnowledgeSequence

  datatype EvidenceEntry = EvidenceEntry(
    position: Id,
    symbol: Id,
    status: KnownStatus,
    derived: Option<DerivedPosition>,
    reason: Option<Rejection>,
    visibleCount: nat)

  datatype SnapshotOutcome = SnapshotAvailable | NoEvidenceRecorded | LedgerUnavailable

  datatype Snapshot = Snapshot(
    outcome: SnapshotOutcome,
    knownCount: nat,
    visibleCount: nat,
    excludedByEffective: nat,
    openCount: nat,
    closedCount: nat,
    unresolvedCount: nat,
    entries: seq<EvidenceEntry>)

  function KnownBy(knowledge: Moment): Event -> bool {
    (e: Event) => e.recordedAt <= knowledge
  }

  function EventsKnownBy(events: seq<Event>, knowledge: Moment): seq<Event> {
    Filter(KnownBy(knowledge), events)
  }

  /** The events of `key` recorded by K and stamped by E. */
  function VisibleKey(events: seq<Event>, key: Id, effective: Moment, knowledge: Moment): seq<Event> {
    KeyEvents(Filter(UpTo(effective), EventsKnownBy(events, knowledge)), key)
  }

  predicate OneKey(key: Id, events: seq<Event>, effective: Moment) {
    events != [] && forall e :: e in events ==> e.position == key && e.at <= effective
  }

  lemma {:induction false} OnlyKey(key: Id, events: seq<Event>)
    requires events != [] && forall e :: e in events ==> e.position == key
    ensures KeysInOrder(events) == [key]
  {
    var front, last := events[..|events| - 1], events[|events| - 1];
    assert events == front + [last] && last in events;
    KeysNext(front, last);
    if front == [] {
    } else {
      OnlyKey(key, front);
    }
  }

  lemma SingleKeyEach(key: Id, events: seq<Event>)
    requires KeyEvents(events, key) == events
    ensures var one := DeriveOne(key, Ordered(events));
            DeriveEach(events, [key]) == if one.Success? then Success([one.value]) else Failure(one.error)
  {
    assert [key][..0] == [];
    assert DeriveEach(events, []) == Success([]);
    if DeriveOne(key, Ordered(events)).Success? {
      assert [] + [DeriveOne(key, Ordered(events)).value] == [DeriveOne(key, Ordered(events)).value];
    }
  }

  /** The events of a single key derive to that key's one position, or its refusal. */
  lemma SingleKeyState(key: Id, events: seq<Event>, effective: Moment)
    requires OneKey(key, events, effective)
    ensures DeriveState(events, effective)
         == match DeriveOne(key, Ordered(events))
            case Failure(reason) => Failure(reason)
            case Success(p) => Success(Summarise([p], |events|, 0))
  {
    FilterAll(UpTo(effective), events);
    FilterAll(ForPosition(key), events);
    OnlyKey(key, events);
    SortOfSorted(IdLeq, [key]);
    SingleKeyEach(key, events);
  }

  lemma SummaryOfOne(p: DerivedPosition, considered: nat)
    ensures var state := Summarise([p], considered, 0);
            state.open + state.closed == [p] && state.open == (if p.isOpen then [p] else [])
  {
  }

  function FoldOneKey(key: Id, events: seq<Event>, effective: Moment): (r: Result<DerivedPosition, Rejection>)
    requires OneKey(key, events, effective)
    ensures r == DeriveOne(key, Ordered(events))
  {
    SingleKeyState(key, events, effective);
    var state :- DeriveState(events, effective);
    SummaryOfOne(DeriveOne(key, Ordered(events)).value, |events|);
    Success((state.open + state.closed)[0])
  }

  function EntryOf(key: Id, events: seq<Event>, effective: Moment): EvidenceEntry
    requires OneKey(key, events, effective)
  {
    var symbol := events[0].symbol;
    match FoldOneKey(key, events, effective)
    case Failure(reason) =>
      EvidenceEntry(key, symbol, UnresolvedKnowledgeSequence, None, Some(reason), |events|)
    case Success(p) =>
      EvidenceEntry(key, symbol, if p.isOpen then KnownOpen else KnownClosed, Some(p), None, |events|)
  }

  ghost predicate Stamped(visible: seq<Event>, effective: Moment) {
    forall e :: e in visible ==> e.at <= effective
  }

  lemma GroupIsOneKey(visible: seq<Event>, key: Id, effective: Moment)
    requires Stamped(visible, effective) && KeyEvents(visible, key) != []
    ensures OneKey(key, KeyEvents(visible, key), effective)
  {
  }

  function EntryAt(visible: seq<Event>, key: Id, effective: Moment): EvidenceEntry
    requires Stamped(visible, effective) && KeyEvents(visible, key) != []
  {
    GroupIsOneKey(visible, key, effective);
    EntryOf(key, KeyEvents(visible, key), effective)
  }

  function EntriesOf(visible: seq<Event>, keys: seq<Id>, effective: Moment): (r: seq<EvidenceEntry>)
    requires Stamped(visible, effective) && forall k :: k in keys ==> KeyEvents(visible, k) != []
    ensures |r| == |keys|
    ensures forall i :: 0 <= i < |keys| ==> r[i] == EntryAt(visible, keys[i], effective)
  {
    seq(|keys|, i requires 0 <= i < |keys| => EntryAt(visible, keys[i], effective))
  }

  predicate EntryLeq(a: EvidenceEntry, b: EvidenceEntry) {
    a.symbol < b.symbol || (a.symbol == b.symbol && a.position <= b.position)
  }

  function HasStatus(status: KnownStatus): EvidenceEntry -> bool {
    (e: EvidenceEntry) => e.status == status
  }

  function CountStatus(status: KnownStatus, entries: seq<EvidenceEntry>): nat {
    |Filter(HasStatus(status), entries)|
  }

  lemma GroupedByKey(known: seq<Event>, effective: Moment)
    ensures Stamped(Filter(UpTo(effective), known), effective)
    ensures forall k :: k in KeysInOrder(Filter(UpTo(effective), known)) <==>
                        KeyEvents(Filter(UpTo(effective), known), k) != []
  {
    var visible := Filter(UpTo(effective), known);
    forall k: Id | true
      ensures k in KeysInOrder(visible) <==> KeyEvents(visible, k) != []
    {
      KeysOccur(visible, k);
    }
  }

  function UnsortedEntries(known: seq<Event>, effective: Moment): seq<EvidenceEntry> {
    GroupedByKey(known, effective);
    EntriesOf(Filter(UpTo(effective), known), KeysInOrder(Filter(UpTo(effective), known)), effective)
  }

  /** The specification of `SnapshotFromKnownEvidence`. */
  function SnapshotOf(known: seq<Event>, effective: Moment): Snapshot {
    var visible := Filter(UpTo(effective), known);
    if known == [] then Snapshot(NoEvidenceRecorded, 0, 0, 0, 0, 0, 0, [])
    else Assembled(known, visible, Sort(EntryLeq, UnsortedEntries(known, effective)))
  }

  function Assembled(known: seq<Event>, visible: seq<Event>, entries: seq<EvidenceEntry>): Snapshot
    requires |visible| <= |known|
  {
    Snapshot(
      SnapshotAvailable, |known|, |visible|, |known| - |visible|,
      CountStatus(KnownOpen, entries), CountStatus(KnownClosed, entries),
      CountStatus(UnresolvedKnowledgeSequence, entries), entries)
  }

  /** One key: fold it through the ledger's own derivation, and keep a refusal as unresolved. */
  method EvaluateKey(visible: seq<Event>, key: Id, events: seq<Event>, effective: Moment) returns (e: EvidenceEntry)
    requires Stamped(visible, effective) && events == KeyEvents(visible, key) && events != []
    ensures e == EntryAt(visible, key, effective)
  {
    GroupIsOneKey(visible, key, effective);
    SingleKeyState(key, events, effective);
    var symbol := events[0].symbol;
    var state := DerivePositionState(events, effective, true);
    match state {
      case Failure(reason) =>
        e := EvidenceEntry(key, symbol, UnresolvedKnowledgeSequence, None, Some(reason), |events|);
      case Success(derived) =>
        SummaryOfOne(DeriveOne(key, Ordered(events)).value, |events|);
        var p := (derived.open + derived.closed)[0];
        e := EvidenceEntry(key, symbol, if p.isOpen then KnownOpen else KnownClosed, Some(p), None, |events|);
    }
  }

  lemma EntriesExtend(visible: seq<Event>, keys: seq<Id>, key: Id, effective: Moment)
    requires Stamped(visible, effective) && forall k :: k in keys + [key] ==> KeyEvents(visible, k) != []
    ensures forall k :: k in keys ==> KeyEvents(visible, k) != []
    ensures key in keys + [key] && KeyEvents(visible, key) != []
    ensures EntriesOf(visible, keys + [key], effective)
         == EntriesOf(visible, keys, effective) + [EntryAt(visible, key, effective)]
  {
    var longer := keys + [key];
    assert key in longer;
    forall k | k in keys
      ensures KeyEvents(visible, k) != []
    {
      assert k in longer;
    }
    LastAppended(EntriesOf(visible, longer, effective), EntriesOf(visible, keys, effective));
  }

  /** The loop over the grouped keys. */
  method CollectEntries(visible: seq<Event>, keys: seq<Id>, groups: map<Id, seq<Event>>, effective: Moment)
    returns (entries: seq<EvidenceEntry>)
    requires Stamped(visible, effective)
    requires forall k :: k in keys ==> k in groups && groups[k] == KeyEvents(visible, k) != []
    ensures entries == EntriesOf(visible, keys, effective)
  {
    entries := [];
    var i := 0;
    while i < |keys|
      invariant 0 <= i <= |keys| && entries == EntriesOf(visible, keys[..i], effective)
    {
      assert keys[..i + 1] == keys[..i] + [keys[i]];
      EntriesExtend(visible, keys[..i], keys[i], effective);
      var entry := EvaluateKey(visible, keys[i], groups[keys[i]], effective);
      entries := entries + [entry];
      i := i + 1;
    }
    assert keys[..i] == keys;
  }

  method SnapshotFromKnownEvidence(known: seq<Event>, effective: Moment) returns (r: Snapshot)
    ensures r == SnapshotOf(known, effective)
  {
    var visible := Filter(UpTo(effective), known);
    if known == [] {
      return Snapshot(NoEvidenceRecorded, 0, 0, 0, 0, 0, 0, []);
    }
    GroupedByKey(known, effective);
    var keys, groups := GroupByPosition(visible);
    var entries := CollectEntries(visible, keys, groups, effective);
    r := Assembled(known, visible, Sort(EntryLeq, entries));
  }

  const WITHHELD_SNAPSHOT := Snapshot(LedgerUnavailable, 0, 0, 0, 0, 0, 0, [])

  /** `aware` says that both cutoffs carry a time zone; without one the call raises. A ledger that cannot be read
      withholds the snapshot. */
  method BuildSnapshot(events: seq<Event>, effective: Moment, knowledge: Moment, aware: bool, ledgerAvailable: bool)
    returns (r: Option<Snapshot>)
    ensures r == None <==> !aware
    ensures aware && ledgerAvailable ==> r == Some(SnapshotOf(EventsKnownBy(events, knowledge), effective))
    ensures aware && !ledgerAvailable ==> r == Some(WITHHELD_SNAPSHOT)
  {
    if !aware {
      return None;
    }
    if !ledgerAvailable {
      return Some(WITHHELD_SNAPSHOT);
    }
    var snapshot := SnapshotFromKnownEvidence(EventsKnownBy(events, knowledge), effective);
    r := Some(snapshot);
  }

  // ----- the snapshot refines the whole-ledger derivation -----

  lemma {:induction false} CountsAddUp(entries: seq<EvidenceEntry>)
    ensures CountStatus(KnownOpen, entries) + CountStatus(KnownClosed, entries)
          + CountStatus(UnresolvedKnowledgeSequence, entries) == |entries|
  {
    if entries == [] {
    } else {
      CountsAddUp(entries[..|entries| - 1]);
    }
  }

  lemma CountSorted(status: KnownStatus, entries: seq<EvidenceEntry>)
    ensures CountStatus(status, Sort(EntryLeq, entries)) == CountStatus(status, entries)
  {
    var a, b := Sort(EntryLeq, entries), entries;
    FilterMultiset(HasStatus(status), a, b);
    assert |Filter(HasStatus(status), a)| == |multiset(Filter(HasStatus(status), a))|;
    assert |Filter(HasStatus(status), b)| == |multiset(Filter(HasStatus(status), b))|;
  }

  /** Every visible key has exactly one entry, and the three counts share them out. */
  lemma EveryKeyCounted(known: seq<Event>, effective: Moment)
    ensures var snap := SnapshotOf(known, effective);
            && snap.openCount + snap.closedCount + snap.unresolvedCount == |snap.entries|
            && |snap.entries| == |KeysInOrder(Filter(UpTo(effective), known))|
  {
    if known != [] {
      CountsAddUp(Sort(EntryLeq, UnsortedEntries(known, effective)));
    }
  }

  lemma EntryPosition(visible: seq<Event>, key: Id, effective: Moment)
    requires Stamped(visible, effective) && KeyEvents(visible, key) != []
    ensures EntryAt(visible, key, effective).position == key
  {
  }

  lemma ListedEntry(visible: seq<Event>, keys: seq<Id>, effective: Moment, x: EvidenceEntry)
    requires Stamped(visible, effective) && forall k :: k in keys ==> KeyEvents(visible, k) != []
    ensures x in EntriesOf(visible, keys, effective)
       <==> x.position in keys && x == EntryAt(visible, x.position, effective)
  {
    var entries := EntriesOf(visible, keys, effective);
    if x in entries {
      var i :| 0 <= i < |entries| && entries[i] == x;
      EntryPosition(visible, keys[i], effective);
      assert keys[i] in keys;
    }
    if x.position in keys {
      var i :| 0 <= i < |keys| && keys[i] == x.position;
      assert entries[i] == EntryAt(visible, x.position, effective);
    }
  }

  lemma SnapshotLists(known: seq<Event>, effective: Moment, x: EvidenceEntry)
    ensures x in SnapshotOf(known, effective).entries <==> x in UnsortedEntries(known, effective)
  {
    InSort(EntryLeq, UnsortedEntries(known, effective), x);
  }

  /** `x` is the entry of a visible key. */
  ghost predicate IsEntry(known: seq<Event>, effective: Moment, x: EvidenceEntry) {
    var visible := Filter(UpTo(effective), known);
    Stamped(visible, effective) && KeyEvents(visible, x.position) != [] && x == EntryAt(visible, x.position, effective)
  }

  lemma EntryMembership(known: seq<Event>, effective: Moment, x: EvidenceEntry)
    ensures Stamped(Filter(UpTo(effective), known), effective)
    ensures x in SnapshotOf(known, effective).entries <==> IsEntry(known, effective, x)
  {
    var visible := Filter(UpTo(effective), known);
    GroupedByKey(known, effective);
    SnapshotLists(known, effective, x);
    ListedEntry(visible, KeysInOrder(visible), effective, x);
  }

  lemma {:induction false} SameSymbol(s: seq<Event>)
    requires FoldEvents(s).Success? && s != []
    ensures FoldEvents(s).value.opening == Some(s[0]) && FoldEvents(s).value.wasOpened && s[0].kind == Opened
    ensures forall e :: e in s ==> e.symbol == s[0].symbol
  {
    var front, last := s[..|s| - 1], s[|s| - 1];
    assert s == front + [last];
    FoldExtend(front, last);
    if front == [] {
      assert FoldEvents(front) == Success(NOTHING_FOLDED);
    } else {
      SameSymbol(front);
      StepKeepsOpening(FoldEvents(front).value, last, s[0]);
      assert front[0] == s[0];
    }
  }

  lemma StepKeepsOpening(state: FoldState, e: Event, opening: Event)
    requires state.opening == Some(opening) && state.wasOpened && FoldStep(state, e).Success?
    ensures FoldStep(state, e).value.opening == Some(opening) && FoldStep(state, e).value.wasOpened
    ensures e.symbol == opening.symbol
  {
  }

  /** A folded key's entry names the instrument its opening names, whatever order its events are listed in. */
  lemma ResolvedSymbol(key: Id, events: seq<Event>, effective: Moment)
    requires OneKey(key, events, effective) && Fold(Ordered(events)).Success?
    ensures EntryOf(key, events, effective).symbol == EntryOf(key, events, effective).derived.value.symbol
    ensures EntryOf(key, events, effective).derived.value.eventCount == |events|
  {
    SameSymbol(Ordered(events));
    OrderedMembers(events);
  }

  /** The entry a derived position must have in the snapshot. */
  function EntryFor(p: DerivedPosition): EvidenceEntry {
    EvidenceEntry(p.position, p.symbol, if p.isOpen then KnownOpen else KnownClosed, Some(p), None, p.eventCount)
  }

  /** A key's entry, in terms of its fold alone. */
  lemma EntryCharacterised(visible: seq<Event>, key: Id, effective: Moment)
    requires Stamped(visible, effective) && KeyEvents(visible, key) != []
    ensures var mine := KeyEvents(visible, key);
            var one := DeriveOne(key, Ordered(mine));
            var entry := EntryAt(visible, key, effective);
            && (one.Success? ==> entry == EntryFor(one.value))
            && (one.Failure? ==>
                  entry == EvidenceEntry(key, mine[0].symbol, UnresolvedKnowledgeSequence, None, Some(one.error),
                                         |mine|))
  {
    GroupIsOneKey(visible, key, effective);
    if DeriveOne(key, Ordered(KeyEvents(visible, key))).Success? {
      ResolvedSymbol(key, KeyEvents(visible, key), effective);
    }
  }

  lemma CountPositive(status: KnownStatus, entries: seq<EvidenceEntry>)
    ensures CountStatus(status, entries) > 0 <==> exists x :: x in entries && x.status == status
  {
    var kept := Filter(HasStatus(status), entries);
    if kept != [] {
      assert kept[0] in kept;
    }
  }

  lemma RefusedKeyListed(known: seq<Event>, effective: Moment, k: Id)
    requires k in SortedKeys(Filter(UpTo(effective), known))
    requires Fold(Ordered(KeyEvents(Filter(UpTo(effective), known), k))).Failure?
    ensures exists x :: x in SnapshotOf(known, effective).entries && x.status == UnresolvedKnowledgeSequence
  {
    var visible := Filter(UpTo(effective), known);
    GroupedByKey(known, effective);
    InSort(IdLeq, KeysInOrder(visible), k);
    EntryCharacterised(visible, k, effective);
    EntryMembership(known, effective, EntryAt(visible, k, effective));
  }

  lemma UnresolvedEntryRefused(visible: seq<Event>, key: Id, effective: Moment)
    requires Stamped(visible, effective) && KeyEvents(visible, key) != []
    requires EntryAt(visible, key, effective).status == UnresolvedKnowledgeSequence
    ensures Fold(Ordered(KeyEvents(visible, key))).Failure?
    ensures key in SortedKeys(visible)
  {
    UnresolvedMeansRefused(visible, key, effective);
    KeyIsListed(visible, key);
  }

  lemma KeyIsListed(visible: seq<Event>, key: Id)
    requires KeyEvents(visible, key) != []
    ensures key in SortedKeys(visible)
  {
    KeysOccur(visible, key);
    InSort(IdLeq, KeysInOrder(visible), key);
  }

  lemma ListedKeyRefused(known: seq<Event>, effective: Moment, x: EvidenceEntry)
    requires x in SnapshotOf(known, effective).entries && x.status == UnresolvedKnowledgeSequence
    ensures x.position in SortedKeys(Filter(UpTo(effective), known))
    ensures Fold(Ordered(KeyEvents(Filter(UpTo(effective), known), x.position))).Failure?
  {
    EntryMembership(known, effective, x);
    UnresolvedEntryRefused(Filter(UpTo(effective), known), x.position, effective);
  }

  /** The snapshot has an unresolved key exactly when the whole-ledger derivation of the known events is
      refused. */
  lemma UnresolvedIffRefused(known: seq<Event>, effective: Moment)
    ensures SnapshotOf(known, effective).unresolvedCount > 0 <==> DeriveState(known, effective).Failure?
  {
    var visible := Filter(UpTo(effective), known);
    var entries := SnapshotOf(known, effective).entries;
    CountPositive(UnresolvedKnowledgeSequence, entries);
    DeriveEachCharacterised(visible, SortedKeys(visible));
    if x :| x in entries && x.status == UnresolvedKnowledgeSequence {
      ListedKeyRefused(known, effective, x);
    }
    if k :| k in SortedKeys(visible) && Fold(Ordered(KeyEvents(visible, k))).Failure? {
      RefusedKeyListed(known, effective, k);
    }
  }

  /** The derivation's positions, as entries: nothing is added, dropped or altered. */
  lemma SamePositions(known: seq<Event>, effective: Moment, p: DerivedPosition)
    requires DeriveState(known, effective).Success?
    ensures var state := DeriveState(known, effective).value;
            p in state.open + state.closed <==> EntryFor(p) in SnapshotOf(known, effective).entries
  {
    var visible := Filter(UpTo(effective), known);
    var keys := SortedKeys(visible);
    GroupedByKey(known, effective);
    EntryMembership(known, effective, EntryFor(p));
    forall k: Id | true
      ensures k in keys <==> KeyEvents(visible, k) != []
    {
      InSort(IdLeq, KeysInOrder(visible), k);
    }
    SamePosition(visible, keys, effective, p);
    PartsHold(DeriveEach(visible, keys).value, p);
  }

  lemma PartsHold(positions: seq<DerivedPosition>, p: DerivedPosition)
    ensures p in Filter(IsOpen, positions) + Filter(IsClosed, positions) <==> p in positions
  {
  }

  /** A position is derived for some of the keys exactly when it is the entry of its own key. */
  lemma SamePosition(visible: seq<Event>, keys: seq<Id>, effective: Moment, p: DerivedPosition)
    requires Stamped(visible, effective) && (p.position in keys <==> KeyEvents(visible, p.position) != [])
    requires DeriveEach(visible, keys).Success? && forall k :: k in keys ==> KeyEvents(visible, k) != []
    ensures p in DeriveEach(visible, keys).value
       <==> KeyEvents(visible, p.position) != [] && EntryFor(p) == EntryAt(visible, p.position, effective)
  {
    var positions := DeriveEach(visible, keys).value;
    DeriveEachCharacterised(visible, keys);
    if p in positions {
      var i :| 0 <= i < |positions| && positions[i] == p;
      assert keys[i] in keys;
      EntryCharacterised(visible, keys[i], effective);
    }
    if KeyEvents(visible, p.position) != [] && EntryFor(p) == EntryAt(visible, p.position, effective) {
      EntryCharacterised(visible, p.position, effective);
      var i :| 0 <= i < |keys| && keys[i] == p.position;
      assert positions[i] in positions;
    }
  }

  function OpenAt(visible: seq<Event>): Id -> bool {
    (k: Id) =>
      var one := DeriveOne(k, Ordered(KeyEvents(visible, k)));
      one.Success? && one.value.isOpen
  }

  lemma SameOpenCount(known: seq<Event>, effective: Moment)
    requires DeriveState(known, effective).Success?
    ensures SnapshotOf(known, effective).openCount == |DeriveState(known, effective).value.open|
  {
    var visible := Filter(UpTo(effective), known);
    var keys, sorted := KeysInOrder(visible), SortedKeys(visible);
    DeriveEachCharacterised(visible, sorted);
    FilterImage(IsOpen, OpenAt(visible), DeriveEach(visible, sorted).value, sorted);
    GroupedByKey(known, effective);
    var entries := EntriesOf(visible, keys, effective);
    forall i | 0 <= i < |keys|
      ensures HasStatus(KnownOpen)(entries[i]) == OpenAt(visible)(keys[i])
    {
      assert keys[i] in keys;
      EntryCharacterised(visible, keys[i], effective);
    }
    FilterImage(HasStatus(KnownOpen), OpenAt(visible), entries, keys);
    FilterMultiset(OpenAt(visible), keys, sorted);
    SameMembers(Filter(OpenAt(visible), keys), Filter(OpenAt(visible), sorted));
    if known != [] {
      CountSorted(KnownOpen, entries);
    }
  }

  /** The per-key snapshot refines the whole-ledger derivation: refused together; otherwise the same open and
      closed positions, each once, only in another order; and every visible key counted once. */
  lemma SnapshotRefinesDerivation(known: seq<Event>, effective: Moment)
    ensures var snap, whole := SnapshotOf(known, effective), DeriveState(known, effective);
            && (snap.unresolvedCount > 0 <==> whole.Failure?)
            && (whole.Success? ==>
                  && (forall p :: p in whole.value.open + whole.value.closed <==> EntryFor(p) in snap.entries)
                  && snap.openCount == |whole.value.open| && snap.closedCount == |whole.value.closed|)
            && snap.openCount + snap.closedCount + snap.unresolvedCount
               == |KeysInOrder(Filter(UpTo(effective), known))|
  {
    var snap, whole := SnapshotOf(known, effective), DeriveState(known, effective);
    UnresolvedIffRefused(known, effective);
    EveryKeyCounted(known, effective);
    if whole.Success? {
      forall p: DerivedPosition | true
        ensures p in whole.value.open + whole.value.closed <==> EntryFor(p) in snap.entries
      {
        SamePositions(known, effective, p);
      }
      SameOpenCount(known, effective);
      PositionsCount(known, effective);
    }
  }

  lemma PositionsCount(known: seq<Event>, effective: Moment)
    requires DeriveState(known, effective).Success?
    ensures var state := DeriveState(known, effective).value;
            |state.open| + |state.closed| == |KeysInOrder(Filter(UpTo(effective), known))|
  {
    var visible := Filter(UpTo(effective), known);
    DeriveEachCharacterised(visible, SortedKeys(visible));
    SplitCount(DeriveEach(visible, SortedKeys(visible)).value);
  }

  lemma {:induction false} SplitCount(positions: seq<DerivedPosition>)
    ensures |Filter(IsOpen, positions)| + |Filter(IsClosed, positions)| == |positions|
  {
    if positions == [] {
    } else {
      SplitCount(positions[..|positions| - 1]);
    }
  }

  // ----- order of the events -----

  /** All events of a key name one instrument. */
  ghost predicate OneSymbol(events: seq<Event>) {
    forall x, y :: x in events && y in events ==> x.symbol == y.symbol
  }

  /** Reordering the known events changes at most the instrument named on an unresolved entry. */
  lemma EntryIgnoresOrder(a: seq<Event>, b: seq<Event>, effective: Moment, key: Id)
    requires multiset(a) == multiset(b) && DistinctIds(a)
    ensures Stamped(Filter(UpTo(effective), a), effective) && Stamped(Filter(UpTo(effective), b), effective)
    ensures var va, vb := Filter(UpTo(effective), a), Filter(UpTo(effective), b);
            && (KeyEvents(va, key) != [] <==> KeyEvents(vb, key) != [])
            && (KeyEvents(va, key) != [] ==>
                  var x, y := EntryAt(va, key, effective), EntryAt(vb, key, effective);
                  && x.(symbol := y.symbol) == y
                  && (x.status != UnresolvedKnowledgeSequence || OneSymbol(KeyEvents(va, key)) ==> x == y))
  {
    var va, vb := Filter(UpTo(effective), a), Filter(UpTo(effective), b);
    SameVisibleKey(a, b, effective, key);
    if KeyEvents(va, key) != [] {
      EntryCharacterised(va, key, effective);
      EntryCharacterised(vb, key, effective);
      SameMembers(KeyEvents(va, key), KeyEvents(vb, key));
      assert KeyEvents(vb, key)[0] in KeyEvents(va, key);
    }
  }

  /** Every unresolved key's visible events name one instrument. */
  ghost predicate UnresolvedNameOneSymbol(known: seq<Event>, effective: Moment) {
    forall k :: Fold(Ordered(KeyEvents(Filter(UpTo(effective), known), k))).Failure? ==>
                  OneSymbol(KeyEvents(Filter(UpTo(effective), known), k))
  }

  lemma EntriesDistinct(known: seq<Event>, effective: Moment)
    ensures var s := UnsortedEntries(known, effective);
            && (forall i, j :: 0 <= i < j < |s| ==> s[i] != s[j])
            && KeysDistinct(EntryLeq, s)
  {
    var visible := Filter(UpTo(effective), known);
    var keys := KeysInOrder(visible);
    GroupedByKey(known, effective);
    var s := UnsortedEntries(known, effective);
    forall i | 0 <= i < |s|
      ensures s[i].position == keys[i]
    {
      assert keys[i] in keys;
      EntryCharacterised(visible, keys[i], effective);
    }
  }

  lemma UnresolvedMeansRefused(visible: seq<Event>, key: Id, effective: Moment)
    requires Stamped(visible, effective) && KeyEvents(visible, key) != []
    ensures EntryAt(visible, key, effective).status == UnresolvedKnowledgeSequence
       <==> Fold(Ordered(KeyEvents(visible, key))).Failure?
  {
    EntryCharacterised(visible, key, effective);
  }

  /** With one symbol per unresolved key, a visible key has one entry, whatever the order. */
  lemma SameEntryAt(a: seq<Event>, b: seq<Event>, effective: Moment, key: Id)
    requires multiset(a) == multiset(b) && DistinctIds(a) && UnresolvedNameOneSymbol(a, effective)
    ensures Stamped(Filter(UpTo(effective), a), effective) && Stamped(Filter(UpTo(effective), b), effective)
    ensures var va, vb := Filter(UpTo(effective), a), Filter(UpTo(effective), b);
            && (KeyEvents(va, key) != [] <==> KeyEvents(vb, key) != [])
            && (KeyEvents(va, key) != [] ==> EntryAt(va, key, effective) == EntryAt(vb, key, effective))
  {
    var va := Filter(UpTo(effective), a);
    EntryIgnoresOrder(a, b, effective, key);
    if KeyEvents(va, key) != [] {
      UnresolvedMeansRefused(va, key, effective);
    }
  }

  lemma SameEntry(a: seq<Event>, b: seq<Event>, effective: Moment, x: EvidenceEntry)
    requires multiset(a) == multiset(b) && DistinctIds(a) && UnresolvedNameOneSymbol(a, effective)
    ensures IsEntry(a, effective, x) <==> IsEntry(b, effective, x)
  {
    SameEntryAt(a, b, effective, x.position);
  }

  lemma SameEntries(a: seq<Event>, b: seq<Event>, effective: Moment)
    requires multiset(a) == multiset(b) && DistinctIds(a) && UnresolvedNameOneSymbol(a, effective)
    ensures forall x :: x in SnapshotOf(a, effective).entries <==> x in SnapshotOf(b, effective).entries
  {
    forall x: EvidenceEntry | true
      ensures x in SnapshotOf(a, effective).entries <==> x in SnapshotOf(b, effective).entries
    {
      EntryMembership(a, effective, x);
      EntryMembership(b, effective, x);
      SameEntry(a, b, effective, x);
    }
  }

  lemma SameSortedEntries(a: seq<Event>, b: seq<Event>, effective: Moment)
    requires a != [] && b != []
    requires forall x :: x in SnapshotOf(a, effective).entries <==> x in SnapshotOf(b, effective).entries
    ensures Sort(EntryLeq, UnsortedEntries(a, effective)) == Sort(EntryLeq, UnsortedEntries(b, effective))
  {
    var ua, ub := UnsortedEntries(a, effective), UnsortedEntries(b, effective);
    forall x: EvidenceEntry | true
      ensures x in ua <==> x in ub
    {
      InSort(EntryLeq, ua, x);
      InSort(EntryLeq, ub, x);
    }
    EntriesDistinct(a, effective);
    EntriesDistinct(b, effective);
    SameMembersSameMultiset(ua, ub);
    SortPermutation(EntryLeq, ua, ub);
  }

  lemma SnapshotIgnoresOrder(a: seq<Event>, b: seq<Event>, effective: Moment)
    requires multiset(a) == multiset(b) && DistinctIds(a) && UnresolvedNameOneSymbol(a, effective)
    ensures SnapshotOf(a, effective) == SnapshotOf(b, effective)
  {
    var va, vb := Filter(UpTo(effective), a), Filter(UpTo(effective), b);
    SameMembers(a, b);
    FilterMultiset(UpTo(effective), a, b);
    SameMembers(va, vb);
    if a != [] {
      SameEntries(a, b, effective);
      SameSortedEntries(a, b, effective);
      SameAssembly(a, va, b, vb, Sort(EntryLeq, UnsortedEntries(a, effective)));
    }
  }

  lemma SameAssembly(a: seq<Event>, va: seq<Event>, b: seq<Event>, vb: seq<Event>, entries: seq<EvidenceEntry>)
    requires |va| == |vb| <= |a| == |b|
    ensures Assembled(a, va, entries) == Assembled(b, vb, entries)
  {
  }

  lemma FirstStays<T>(keep: T -> bool, x: T, rest: seq<T>)
    requires keep(x)
    ensures Filter(keep, [x] + rest) == [x] + Filter(keep, rest)
  {
    FilterConcat(keep, [x], rest);
    FilterAll(keep, [x]);
  }

  lemma MovedFirst<T>(s: seq<T>, x: T) returns (rest: seq<T>)
    requires x in s
    ensures multiset([x] + rest) == multiset(s)
  {
    var i :| 0 <= i < |s| && s[i] == x;
    rest := s[..i] + s[i + 1..];
    assert s == s[..i] + [x] + s[i + 1..];
  }

  /** Listing event `e` first makes its symbol the one an unresolved entry of its key names. */
  lemma ListedFirst(known: seq<Event>, effective: Moment, e: Event) returns (b: seq<Event>)
    requires e in known && e.at <= effective
    ensures multiset(b) == multiset(known)
    ensures KeyEvents(Filter(UpTo(effective), b), e.position) != []
    ensures KeyEvents(Filter(UpTo(effective), b), e.position)[0] == e
  {
    var rest := MovedFirst(known, e);
    b := [e] + rest;
    FirstStays(UpTo(effective), e, rest);
    FirstStays(ForPosition(e.position), e, Filter(UpTo(effective), rest));
  }

  lemma OrderShowsSymbol(known: seq<Event>, effective: Moment, key: Id)
    requires DistinctIds(known)
    requires var mine := KeyEvents(Filter(UpTo(effective), known), key);
             Fold(Ordered(mine)).Failure? && !OneSymbol(mine)
    ensures exists b :: multiset(b) == multiset(known) && SnapshotOf(b, effective) != SnapshotOf(known, effective)
  {
    var visible := Filter(UpTo(effective), known);
    var mine := KeyEvents(visible, key);
    EntryMembership(known, effective, EntryAt(visible, key, effective));
    EntryCharacterised(visible, key, effective);
    var e :| e in mine && e.symbol != mine[0].symbol;
    assert e in visible && e in known;
    var b := ListedFirst(known, effective, e);
    SameVisibleKey(known, b, effective, key);
    EntryMembership(b, effective, EntryAt(visible, key, effective));
    EntryCharacterised(Filter(UpTo(effective), b), key, effective);
  }

  /** A position that was only reduced is unresolved, under the instrument of the event listed first. */
  lemma FirstListedNamed(a: Event, b: Event, effective: Moment)
    requires a.position == b.position && a.kind == b.kind == Reduced && a.at <= effective && b.at <= effective
    ensures exists x :: x in SnapshotOf([a, b], effective).entries && x.symbol == a.symbol
    ensures forall x :: x in SnapshotOf([a, b], effective).entries ==> x.symbol == a.symbol
  {
    var known, key := [a, b], a.position;
    FilterAll(UpTo(effective), known);
    FilterAll(ForPosition(key), known);
    ReducedOnlyNamed(known, key, effective);
    var entry := EntryAt(known, key, effective);
    EntryPosition(known, key, effective);
    EntryMembership(known, effective, entry);
    forall x | x in SnapshotOf(known, effective).entries
      ensures x.symbol == a.symbol
    {
      EntryMembership(known, effective, x);
      OnlyListed(known, key, effective, x);
    }
  }

  lemma ReducedOnlyNamed(known: seq<Event>, key: Id, effective: Moment)
    requires known != [] && Stamped(known, effective) && KeyEvents(known, key) == known
    requires forall e :: e in known ==> e.kind == Reduced
    ensures EntryAt(known, key, effective).symbol == known[0].symbol
  {
    OrderedMembers(known);
    assert Ordered(known)[0] in Ordered(known);
    FoldWithoutOpening(Ordered(known));
    EntryCharacterised(known, key, effective);
  }

  lemma OnlyListed(known: seq<Event>, key: Id, effective: Moment, x: EvidenceEntry)
    requires forall e :: e in known ==> e.position == key
    requires Stamped(known, effective) && KeyEvents(known, x.position) != []
    ensures x.position == key
  {
    assert KeyEvents(known, x.position)[0] in known;
  }

  /** A reduction of position 7 by one share at the price 1. */
  function Reduction(id: Id, symbol: Id): Event {
    Event(id, 7, symbol, Reduced, 1, DecimalText.Finite(false, [1], 0), 0, 0, true)
  }

  lemma ReductionValid(id: Id, symbol: Id)
    ensures ValidEvent(Reduction(id, symbol))
  {
    assert DecimalText.Coefficient([1]) == 1;
  }

  lemma MixedReductionsDiffer(a: Event, b: Event, effective: Moment)
    requires a.position == b.position && a.kind == b.kind == Reduced && a.at <= effective && b.at <= effective
    requires a.symbol != b.symbol
    ensures SnapshotOf([a, b], effective) != SnapshotOf([b, a], effective)
  {
    FirstListedNamed(a, b, effective);
    FirstListedNamed(b, a, effective);
  }

  /** Two reductions of one position on different instruments, recorded without an opening: each order names the
      instrument it lists first. */
  lemma MixedReductionsShowOrder()
    ensures ValidEvent(Reduction(1, 10)) && ValidEvent(Reduction(2, 20))
    ensures SnapshotOf([Reduction(1, 10), Reduction(2, 20)], 0) != SnapshotOf([Reduction(2, 20), Reduction(1, 10)], 0)
  {
    ReductionValid(1, 10);
    ReductionValid(2, 20);
    MixedReductionsDiffer(Reduction(1, 10), Reduction(2, 20), 0);
  }

  /** The order of the known events never changes the snapshot, exactly when no unresolved key mixes
      instruments. */
  lemma OrderInvisibleExactly(known: seq<Event>, effective: Moment)
    requires DistinctIds(known)
    ensures (forall b :: multiset(b) == multiset(known) ==> SnapshotOf(b, effective) == SnapshotOf(known, effective))
       <==> UnresolvedNameOneSymbol(known, effective)
  {
    if UnresolvedNameOneSymbol(known, effective) {
      forall b: seq<Event> | multiset(b) == multiset(known)
        ensures SnapshotOf(b, effective) == SnapshotOf(known, effective)
      {
        SnapshotIgnoresOrder(known, b, effective);
      }
    } else {
      var k :| Fold(Ordered(KeyEvents(Filter(UpTo(effective), known), k))).Failure?
               && !OneSymbol(KeyEvents(Filter(UpTo(effective), known), k));
      OrderShowsSymbol(known, effective, k);
    }
  }

  // ----- snapshots of a ledger built by appends -----

  lemma VisibleLife(events: seq<Event>, key: Id, effective: Moment, knowledge: Moment)
    ensures Ordered(VisibleKey(events, key, effective, knowledge))
         == Filter(UpTo(effective), Filter(KnownBy(knowledge), Ordered(KeyEvents(events, key))))
  {
    var known := EventsKnownBy(events, knowledge);
    FilterCommutes(ForPosition(key), UpTo(effective), known);
    FilterCommutes(ForPosition(key), KnownBy(knowledge), events);
    OrderIsTotal();
    SortFilter(OrderLeq, UpTo(effective), Filter(KnownBy(knowledge), KeyEvents(events, key)));
    SortFilter(OrderLeq, KnownBy(knowledge), KeyEvents(events, key));
  }

  /** The event that opened a position: the first of its life. */
  function OpeningOf(events: seq<Event>, key: Id): Event
    requires KeyEvents(events, key) != []
  {
    Ordered(KeyEvents(events, key))[0]
  }

  lemma LifeOfKey(events: seq<Event>, key: Id)
    requires LedgerInvariant(events) && KeyEvents(events, key) != []
    ensures Coherent(Ordered(KeyEvents(events, key))) && AllValid(Ordered(KeyEvents(events, key)))
  {
    var mine := KeyEvents(events, key);
    assert mine[0] in mine && mine[0] in events;
    OrderedMembers(mine);
  }

  lemma OpeningIsFirst(mine: seq<Event>, e: Event)
    requires Coherent(Ordered(mine)) && e in mine
    ensures mine != [] && (e.kind == Opened <==> e == Ordered(mine)[0]) && Ordered(mine)[0].at <= e.at
  {
    OrderedMembers(mine);
    assert e in Ordered(mine);
    OpeningFirst(mine, e);
  }

  lemma OpeningIsUnique(events: seq<Event>, key: Id)
    requires LedgerInvariant(events) && KeyEvents(events, key) != []
    ensures forall e :: e in events && e.position == key ==> (e.kind == Opened <==> e == OpeningOf(events, key))
    ensures forall e :: e in events && e.position == key ==> OpeningOf(events, key).at <= e.at
  {
    LifeOfKey(events, key);
    forall e | e in events && e.position == key
      ensures (e.kind == Opened <==> e == OpeningOf(events, key)) && OpeningOf(events, key).at <= e.at
    {
      OpeningIsFirst(KeyEvents(events, key), e);
    }
  }

  /** What (E, K) shows of a position: a coherent life with the same opening if the opening was recorded by K;
      otherwise a sequence refused as not open. */
  lemma VisibleLifeFolds(events: seq<Event>, key: Id, effective: Moment, knowledge: Moment)
    requires LedgerInvariant(events) && VisibleKey(events, key, effective, knowledge) != []
    ensures KeyEvents(events, key) != []
    ensures var shown := Ordered(VisibleKey(events, key, effective, knowledge));
            if OpeningOf(events, key).recordedAt <= knowledge
            then Coherent(shown) && shown[0] == OpeningOf(events, key)
            else Fold(shown) == Failure(PositionNotOpen)
  {
    var mine := VisibleKey(events, key, effective, knowledge);
    assert mine[0] in mine && mine[0] in events && mine[0] in KeyEvents(events, key);
    var life := Ordered(KeyEvents(events, key));
    LifeOfKey(events, key);
    VisibleLife(events, key, effective, knowledge);
    OpeningIsUnique(events, key);
    if life[0].recordedAt <= knowledge {
      CoherentFilter(KnownBy(knowledge), life);
      CoherentFilter(UpTo(effective), Filter(KnownBy(knowledge), life));
    } else {
      FilterWithoutOpening(KnownBy(knowledge), life);
      FilterCommutes(UpTo(effective), KnownBy(knowledge), life);
      var shown := Ordered(mine);
      OrderedMembers(mine);
      assert shown[0] in shown && shown[0] in Filter(KnownBy(knowledge), life);
      FoldWithoutOpening(shown);
    }
  }

  /** A visible position is unresolved exactly when its opening was recorded after K, and always because it
      is not open. */
  lemma UnresolvedIffOpeningUnrecorded(events: seq<Event>, key: Id, effective: Moment, knowledge: Moment)
    requires LedgerInvariant(events) && VisibleKey(events, key, effective, knowledge) != []
    ensures KeyEvents(events, key) != []
    ensures Stamped(Filter(UpTo(effective), EventsKnownBy(events, knowledge)), effective)
    ensures var entry := EntryAt(Filter(UpTo(effective), EventsKnownBy(events, knowledge)), key, effective);
            && (entry.status == UnresolvedKnowledgeSequence <==> OpeningOf(events, key).recordedAt > knowledge)
            && (entry.status == UnresolvedKnowledgeSequence ==> entry.reason == Some(PositionNotOpen))
            && entry.symbol == OpeningOf(events, key).symbol
  {
    var visible := Filter(UpTo(effective), EventsKnownBy(events, knowledge));
    var mine := VisibleKey(events, key, effective, knowledge);
    VisibleLifeFolds(events, key, effective, knowledge);
    EntryCharacterised(visible, key, effective);
    OrderedMembers(mine);
    FoldCharacterised(Ordered(mine));
    LifeOfKey(events, key);
    SameInstrument(events, key, mine[0]);
  }

  lemma SameInstrument(events: seq<Event>, key: Id, e: Event)
    requires LedgerInvariant(events) && e in events && e.position == key
    ensures KeyEvents(events, key) != [] && e.symbol == OpeningOf(events, key).symbol
  {
    var mine := KeyEvents(events, key);
    assert e in mine;
    OrderedMembers(mine);
    var i :| 0 <= i < |Ordered(mine)| && Ordered(mine)[i] == e;
    LifeOfKey(events, key);
  }

  /** For such a ledger the reading order of the events is never visible. */
  lemma LedgerOrderInvisible(events: seq<Event>, b: seq<Event>, effective: Moment, knowledge: Moment)
    requires LedgerInvariant(events) && multiset(b) == multiset(EventsKnownBy(events, knowledge))
    ensures SnapshotOf(b, effective) == SnapshotOf(EventsKnownBy(events, knowledge), effective)
  {
    var known := EventsKnownBy(events, knowledge);
    KnownDistinct(events, knowledge);
    forall k: Id | true
      ensures OneSymbol(KeyEvents(Filter(UpTo(effective), known), k))
    {
      var mine := KeyEvents(Filter(UpTo(effective), known), k);
      forall x, y | x in mine && y in mine
        ensures x.symbol == y.symbol
      {
        SameInstrument(events, k, x);
        SameInstrument(events, k, y);
      }
    }
    SnapshotIgnoresOrder(known, b, effective);
  }

  lemma {:induction false} KnownDistinct(events: seq<Event>, knowledge: Moment)
    requires DistinctIds(events)
    ensures DistinctIds(EventsKnownBy(events, knowledge))
  {
    if events == [] {
    } else {
      var front, last := events[..|events| - 1], events[|events| - 1];
      KnownDistinct(front, knowledge);
      assert events == front + [last];
      FreshId(front, last);
    }
  }
}
