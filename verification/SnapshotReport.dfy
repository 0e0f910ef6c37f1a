/** What the point-in-time snapshot counts and lists, in terms of the known events alone. */
module SnapshotReport {
  import opened Wrappers
  import opened Sorting
  import opened PositionFold
  import opened PositionLedger
  import opened PositionState
  import opened EvidenceAvailability
  import opened PositionReport

  /** The status of an entry that folds is decided by what its life leaves open, and everything else it says is the
      position of that life; an entry that does not fold carries the fold's reason and the first event's instrument. */
  lemma EntryReported(visible: seq<Event>, key: Id, effective: Moment)
    requires AllValid(visible) && Stamped(visible, effective) && KeyEvents(visible, key) != []
    ensures var entry, life := EntryAt(visible, key, effective), Life(visible, key);
            && entry.position == key && entry.visibleCount == |life|
            && (entry.status == UnresolvedKnowledgeSequence <==> !Coherent(life))
            && (Coherent(life) ==>
                  && (entry.status == KnownOpen <==> Remaining(life) > 0)
                  && (entry.status == KnownClosed <==> Remaining(life) == 0)
                  && entry.symbol == life[0].symbol && entry.reason == None
                  && entry.derived.Some? && Reports(entry.derived.value, life))
            && (!Coherent(life) ==>
                  && entry.symbol == KeyEvents(visible, key)[0].symbol && entry.derived == None
                  && Fold(life).Failure? && entry.reason == Some(Fold(life).error))
  {
    var life := Life(visible, key);
    LifeValid(visible, key);
    FoldCharacterised(life);
    EntryCharacterised(visible, key, effective);
    if Coherent(life) {
      DerivedReports(key, life);
    }
  }

  ghost function EntryHas(visible: seq<Event>, effective: Moment, status: KnownStatus): Id -> bool
    requires Stamped(visible, effective)
  {
    (k: Id) => KeyEvents(visible, k) != [] && EntryAt(visible, k, effective).status == status
  }

  /** The visible keys whose entry has this status. */
  ghost function KeysKnown(visible: seq<Event>, effective: Moment, status: KnownStatus): set<Id>
    requires Stamped(visible, effective)
  {
    Chosen(EntryHas(visible, effective, status), KeysInOrder(visible))
  }

  lemma EntriesByKeys(visible: seq<Event>, keys: seq<Id>, effective: Moment, status: KnownStatus)
    requires Stamped(visible, effective) && forall k :: k in keys ==> KeyEvents(visible, k) != []
    requires forall i, j :: 0 <= i < j < |keys| ==> keys[i] != keys[j]
    ensures CountStatus(status, EntriesOf(visible, keys, effective))
         == |Chosen(EntryHas(visible, effective, status), keys)|
  {
    var entries := EntriesOf(visible, keys, effective);
    forall i | 0 <= i < |keys|
      ensures HasStatus(status)(entries[i]) == EntryHas(visible, effective, status)(keys[i])
    {
      assert keys[i] in keys;
    }
    CountOfKeys(HasStatus(status), entries, EntryHas(visible, effective, status), keys);
  }

  lemma CountedByKeys(known: seq<Event>, effective: Moment, status: KnownStatus)
    ensures Stamped(Filter(UpTo(effective), known), effective)
    ensures CountStatus(status, Sort(EntryLeq, UnsortedEntries(known, effective)))
         == |KeysKnown(Filter(UpTo(effective), known), effective, status)|
  {
    GroupedByKey(known, effective);
    CountAfterSort(EntryLeq, HasStatus(status), UnsortedEntries(known, effective));
    EntriesByKeys(Filter(UpTo(effective), known), KeysInOrder(Filter(UpTo(effective), known)), effective, status);
  }

  /** The snapshot counts the known events, those stamped by E, and the visible keys of each status. */
  lemma SnapshotCounts(known: seq<Event>, effective: Moment)
    ensures Stamped(Filter(UpTo(effective), known), effective)
    ensures var s, visible := SnapshotOf(known, effective), Filter(UpTo(effective), known);
            && (s.outcome == NoEvidenceRecorded <==> known == []) && (s.outcome == SnapshotAvailable <==> known != [])
            && s.knownCount == |known| && s.visibleCount == |set i | 0 <= i < |known| && known[i].at <= effective|
            && s.excludedByEffective == s.knownCount - s.visibleCount
            && s.openCount == |KeysKnown(visible, effective, KnownOpen)|
            && s.closedCount == |KeysKnown(visible, effective, KnownClosed)|
            && s.unresolvedCount == |KeysKnown(visible, effective, UnresolvedKnowledgeSequence)|
  {
    ConsideredCount(known, effective);
    CountedByKeys(known, effective, KnownOpen);
    CountedByKeys(known, effective, KnownClosed);
    CountedByKeys(known, effective, UnresolvedKnowledgeSequence);
    if known != [] {
      AssembledCounts(known, Filter(UpTo(effective), known), Sort(EntryLeq, UnsortedEntries(known, effective)));
    }
  }

  lemma AssembledCounts(known: seq<Event>, visible: seq<Event>, entries: seq<EvidenceEntry>)
    requires |visible| <= |known|
    ensures var s := Assembled(known, visible, entries);
            && s.outcome == SnapshotAvailable && s.knownCount == |known| && s.visibleCount == |visible|
            && s.excludedByEffective == |known| - |visible| && s.openCount == CountStatus(KnownOpen, entries)
            && s.closedCount == CountStatus(KnownClosed, entries)
            && s.unresolvedCount == CountStatus(UnresolvedKnowledgeSequence, entries) && s.entries == entries
  {
  }

  predicate ByInstrument(entries: seq<EvidenceEntry>) {
    forall i, j :: 0 <= i < j < |entries| ==>
      entries[i].symbol < entries[j].symbol
      || (entries[i].symbol == entries[j].symbol && entries[i].position <= entries[j].position)
  }

  /** Entries are listed by instrument, then by position. */
  lemma SnapshotInOrder(known: seq<Event>, effective: Moment)
    ensures ByInstrument(SnapshotOf(known, effective).entries)
  {
    if known != [] {
      SortedEntries(UnsortedEntries(known, effective), SnapshotOf(known, effective).entries);
    }
  }

  lemma SortedEntries(unsorted: seq<EvidenceEntry>, entries: seq<EvidenceEntry>)
    requires entries == Sort(EntryLeq, unsorted)
    ensures ByInstrument(entries)
  {
    SortSorted(EntryLeq, unsorted);
    forall i, j | 0 <= i < j < |entries|
      ensures entries[i].symbol < entries[j].symbol
              || (entries[i].symbol == entries[j].symbol && entries[i].position <= entries[j].position)
    {
      assert EntryLeq(entries[i], entries[j]);
    }
  }
}
