/** The append-only ledger: validation of an append, and what every run of appends keeps.

    `events` lists the log in append order. Event time and recording time are independent of it. */
module PositionLedger {
  import opened Wrappers
  import opened Sorting
  import opened PositionFold

  function ForPosition(key: Id): Event -> bool {
    (e: Event) => e.position == key
  }

  /** Events of one key, in the order of `events`. */
  function KeyEvents(events: seq<Event>, key: Id): seq<Event> {
    Filter(ForPosition(key), events)
  }

  function Ordered(events: seq<Event>): seq<Event> {
    Sort(OrderLeq, events)
  }

  /** Strictly before `e` in event-time order. */
  function Before(e: Event): Event -> bool {
    (x: Event) => !OrderLeq(e, x)
  }

  /** For a close, what is open just before it; otherwise the asserted quantity. */
  function EffectiveQuantity(sameKey: seq<Event>, candidate: Event): Result<int, Rejection> {
    if candidate.kind != Closed then Success(candidate.quantity)
    else
      var prior := Filter(Before(candidate), sameKey);
      if prior == [] then Success(0)
      else
        var folded :- Fold(Ordered(prior));
        Success(folded.quantity)
  }

  predicate Duplicated(existing: seq<Event>, candidate: Event) {
    exists e :: e in existing && e.governanceId == candidate.governanceId
  }

  function ValidateAppended(existing: seq<Event>, candidate: Event): Result<int, Rejection> {
    if Duplicated(existing, candidate) then Failure(DuplicateEventGovernanceId)
    else
      var sameKey := KeyEvents(existing, candidate.position);
      var quantity :- EffectiveQuantity(sameKey, candidate);
      var folded :- Fold(Ordered(sameKey + [candidate.(quantity := quantity)]));
      Success(quantity)
  }

  /** The event as persisted, or why it is refused. */
  function AppendResult(existing: seq<Event>, candidate: Event): Result<Event, Rejection>
  {
    match ConstructionError(candidate)
    case Some(reason) => Failure(reason)
    case None =>
      var quantity :- ValidateAppended(existing, candidate);
      Success(if candidate.kind == Closed then candidate.(quantity := quantity) else candidate)
  }

  // ----- the invariant -----

  /** Opened minus reduced. */
  function OpenTotal(s: seq<Event>): int {
    Sum(OpenedQuantity, s) - Sum(ReducedQuantity, s)
  }

  /** The close at index `c` carries what the log then said was open: opened minus reduced, of the events
      of its key appended before it. */
  ghost predicate ClosedAsStored(events: seq<Event>, c: nat)
    requires c < |events|
  {
    events[c].quantity == OpenTotal(KeyEvents(events[..c], events[c].position)) > 0
  }

  ghost predicate LedgerInvariant(events: seq<Event>) {
    && AllValid(events) && DistinctIds(events)
    && (forall e :: e in events ==> Coherent(Ordered(KeyEvents(events, e.position))))
    && (forall c :: 0 <= c < |events| && events[c].kind == Closed ==> ClosedAsStored(events, c))
  }

  lemma OrderedMembers(s: seq<Event>)
    ensures forall e :: e in Ordered(s) <==> e in s
  {
    forall e: Event | true
      ensures e in Ordered(s) <==> e in s
    {
      InSort(OrderLeq, s, e);
    }
  }

  lemma OrderedSums(s: seq<Event>)
    ensures Sum(OpenedQuantity, Ordered(s)) == Sum(OpenedQuantity, s)
    ensures Sum(ReducedQuantity, Ordered(s)) == Sum(ReducedQuantity, s)
    ensures Sum(ClosedQuantity, Ordered(s)) == Sum(ClosedQuantity, s)
  {
    SumPermutation(OpenedQuantity, Ordered(s), s);
    SumPermutation(ReducedQuantity, Ordered(s), s);
    SumPermutation(ClosedQuantity, Ordered(s), s);
  }

  /** In a coherent life, only the first event opens and only the last can close. */
  lemma {:induction false} CoherentSums(s: seq<Event>)
    requires AllValid(s) && Coherent(s)
    ensures Sum(OpenedQuantity, s) == s[0].quantity
    ensures Sum(ClosedQuantity, s) == ClosedQuantity(s[|s| - 1])
  {
    var front, e := s[..|s| - 1], s[|s| - 1];
    assert s == front + [e];
    if front == [] {
      assert Sum(OpenedQuantity, front) == 0 && Sum(ClosedQuantity, front) == 0;
    } else {
      assert forall x :: x in front ==> x in s;
      CoherentExtend(front, e);
      CoherentSums(front);
    }
  }

  lemma DistinctIdsFilter(events: seq<Event>, key: Id)
    requires DistinctIds(events)
    ensures KeysDistinct(OrderLeq, KeyEvents(events, key))
  {
    DistinctKeys(events);
  }

  lemma SortAppend(s: seq<Event>, e: Event)
    ensures Ordered(s + [e]) == Insert(OrderLeq, e, Ordered(s))
  {
  }

  /** A close that is accepted is the last event of its key, and nothing is hidden from its derivation. */
  lemma CloseIsLast(sameKey: seq<Event>, e: Event)
    requires e.kind == Closed && AllValid(sameKey) && ValidEvent(e)
    requires forall x :: x in sameKey ==> x.governanceId != e.governanceId
    requires Coherent(Ordered(sameKey + [e]))
    ensures Filter(Before(e), sameKey) == sameKey
    ensures sameKey != [] && Ordered(sameKey + [e]) == Ordered(sameKey) + [e]
  {
    var all := Ordered(sameKey + [e]);
    OrderedMembers(sameKey + [e]);
    OrderedMembers(sameKey);
    OrderIsTotal();
    SortSorted(OrderLeq, sameKey + [e]);
    assert e in all;
    var i :| 0 <= i < |all| && all[i] == e;
    assert i == |all| - 1;
    forall x | x in sameKey
      ensures OrderLeq(x, e) && Before(e)(x)
    {
      assert x in all;
      var j :| 0 <= j < |all| && all[j] == x;
      assert j < i;
    }
    FilterAll(Before(e), sameKey);
    SortAppend(sameKey, e);
    if sameKey != [] {
      var ordered := Ordered(sameKey);
      assert ordered[|ordered| - 1] in ordered;
    }
  }

  lemma KeyEventsAppend(events: seq<Event>, e: Event, key: Id)
    ensures KeyEvents(events + [e], key)
         == if e.position == key then KeyEvents(events, key) + [e] else KeyEvents(events, key)
  {
  }

  lemma OpenBeforeClose(sameKey: seq<Event>, e: Event)
    requires e.kind == Closed && AllValid(sameKey) && ValidEvent(e)
    requires forall x :: x in sameKey ==> x.governanceId != e.governanceId
    requires Coherent(Ordered(sameKey + [e]))
    ensures Coherent(Ordered(sameKey)) && Remaining(Ordered(sameKey)) == OpenTotal(sameKey) > 0
  {
    var ordered := Ordered(sameKey);
    CloseIsLast(sameKey, e);
    OrderedMembers(sameKey);
    assert forall x :: x in ordered + [e] ==> ValidEvent(x);
    CoherentExtend(ordered, e);
    CoherentSums(ordered);
    OrderedSums(sameKey);
  }

  lemma EffectiveOfClose(sameKey: seq<Event>, candidate: Event, q: int)
    requires candidate.kind == Closed && AllValid(sameKey) && ValidEvent(candidate.(quantity := q))
    requires forall x :: x in sameKey ==> x.governanceId != candidate.governanceId
    requires Coherent(Ordered(sameKey + [candidate.(quantity := q)]))
    ensures EffectiveQuantity(sameKey, candidate) == Success(OpenTotal(sameKey)) && OpenTotal(sameKey) > 0
  {
    var e := candidate.(quantity := q);
    CloseIsLast(sameKey, e);
    OpenBeforeClose(sameKey, e);
    FilterAgree(Before(e), Before(candidate), sameKey);
    OrderedMembers(sameKey);
    FoldCharacterised(Ordered(sameKey));
  }

  lemma EffectiveNonNegative(sameKey: seq<Event>, candidate: Event)
    requires AllValid(sameKey) && ValidEvent(candidate) && EffectiveQuantity(sameKey, candidate).Success?
    ensures ValidEvent(candidate.(quantity := EffectiveQuantity(sameKey, candidate).value))
  {
    if candidate.kind == Closed {
      var prior := Filter(Before(candidate), sameKey);
      OrderedMembers(prior);
      FoldCharacterised(Ordered(prior));
    }
  }

  /** What acceptance of an append means, unfolded. */
  lemma AcceptedParts(events: seq<Event>, candidate: Event)
    requires AppendResult(events, candidate).Success?
    ensures var e := AppendResult(events, candidate).value;
            var sameKey := KeyEvents(events, candidate.position);
            && ConstructionError(candidate) == None
            && ValidateAppended(events, candidate) == Success(e.quantity)
            && EffectiveQuantity(sameKey, candidate) == Success(e.quantity)
            && e == candidate.(quantity := e.quantity)
            && Fold(Ordered(sameKey + [e])).Success?
            && (forall x :: x in events ==> x.governanceId != e.governanceId)
  {
  }

  lemma Accepted(events: seq<Event>, candidate: Event)
    requires AllValid(events)
    requires AppendResult(events, candidate).Success?
    ensures var e := AppendResult(events, candidate).value;
            var sameKey := KeyEvents(events, candidate.position);
            && ValidEvent(e) && e.position == candidate.position
            && Coherent(Ordered(sameKey + [e]))
            && (e.kind == Closed ==> e.quantity == OpenTotal(sameKey) > 0)
  {
    AcceptedParts(events, candidate);
    var sameKey := KeyEvents(events, candidate.position);
    EffectiveNonNegative(sameKey, candidate);
    var e := AppendResult(events, candidate).value;
    OrderedMembers(sameKey + [e]);
    FoldCharacterised(Ordered(sameKey + [e]));
    if candidate.kind == Closed {
      EffectiveOfClose(sameKey, candidate, e.quantity);
    }
  }

  lemma AppendedCoherent(events: seq<Event>, e: Event)
    requires LedgerInvariant(events)
    requires Coherent(Ordered(KeyEvents(events, e.position) + [e]))
    ensures forall x :: x in events + [e] ==> Coherent(Ordered(KeyEvents(events + [e], x.position)))
  {
    forall x | x in events + [e]
      ensures Coherent(Ordered(KeyEvents(events + [e], x.position)))
    {
      KeyEventsAppend(events, e, x.position);
    }
  }

  lemma SameClose(longer: seq<Event>, shorter: seq<Event>, c: nat)
    requires c < |longer| && c < |shorter| && longer[..c] == shorter[..c] && longer[c] == shorter[c]
    ensures ClosedAsStored(longer, c) <==> ClosedAsStored(shorter, c)
  {
  }

  lemma AppendedClose(events: seq<Event>, e: Event, c: nat)
    requires LedgerInvariant(events) && c <= |events| && (events + [e])[c].kind == Closed
    requires e.kind == Closed ==> e.quantity == OpenTotal(KeyEvents(events, e.position)) > 0
    ensures ClosedAsStored(events + [e], c)
  {
    assert (events + [e])[..c] == events[..c];
    if c < |events| {
      assert (events + [e])[c] == events[c];
      SameClose(events + [e], events, c);
    } else {
      assert events[..c] == events;
    }
  }

  lemma AppendedCloses(events: seq<Event>, e: Event)
    requires LedgerInvariant(events)
    requires e.kind == Closed ==> e.quantity == OpenTotal(KeyEvents(events, e.position)) > 0
    ensures forall c :: 0 <= c <= |events| && (events + [e])[c].kind == Closed ==> ClosedAsStored(events + [e], c)
  {
    forall c | 0 <= c <= |events| && (events + [e])[c].kind == Closed
      ensures ClosedAsStored(events + [e], c)
    {
      AppendedClose(events, e, c);
    }
  }

  lemma AppendedIds(events: seq<Event>, e: Event)
    requires AllValid(events) && DistinctIds(events) && ValidEvent(e)
    requires forall x :: x in events ==> x.governanceId != e.governanceId
    ensures AllValid(events + [e]) && DistinctIds(events + [e])
  {
  }

  /** An accepted append keeps the invariant. */
  lemma AppendKeepsInvariant(events: seq<Event>, candidate: Event)
    requires LedgerInvariant(events)
    requires AppendResult(events, candidate).Success?
    ensures LedgerInvariant(events + [AppendResult(events, candidate).value])
  {
    Accepted(events, candidate);
    AcceptedParts(events, candidate);
    var e := AppendResult(events, candidate).value;
    AppendedIds(events, e);
    AppendedCoherent(events, e);
    AppendedCloses(events, e);
    assert |events + [e]| == |events| + 1;
  }

  // ----- runs -----

  /** The log after a sequence of attempted appends; a refused attempt leaves it as it was. */
  function Run(attempts: seq<Event>): seq<Event>
  {
    if attempts == [] then []
    else
      var events := Run(attempts[..|attempts| - 1]);
      match AppendResult(events, attempts[|attempts| - 1])
      case Success(e) => events + [e]
      case Failure(_) => events
  }

  /** Every run of attempted appends, back-dated ones included, ends in a ledger with the invariant. */
  lemma {:induction false} RunsKeepInvariant(attempts: seq<Event>)
    ensures LedgerInvariant(Run(attempts))
  {
    if attempts == [] {
    } else {
      var n := |attempts| - 1;
      RunsKeepInvariant(attempts[..n]);
      if AppendResult(Run(attempts[..n]), attempts[n]).Success? {
        AppendKeepsInvariant(Run(attempts[..n]), attempts[n]);
      }
    }
  }

  lemma {:induction false} RunPrefixes(attempts: seq<Event>, n: nat)
    requires n <= |Run(attempts)|
    ensures LedgerInvariant(Run(attempts)[..n])
  {
    var events := Run(attempts);
    RunsKeepInvariant(attempts);
    if n == |events| {
      assert events[..n] == events;
    } else {
      var earlier := Run(attempts[..|attempts| - 1]);
      assert events[..n] == earlier[..n];
      RunPrefixes(attempts[..|attempts| - 1], n);
    }
  }

  /** Offering a log's own events in its own order is accepted throughout. */
  lemma {:induction false} Replay(events: seq<Event>)
    requires forall n :: 0 <= n <= |events| ==> LedgerInvariant(events[..n])
    ensures Run(events) == events
  {
    if events == [] {
    } else {
      var front, e := events[..|events| - 1], events[|events| - 1];
      assert events == front + [e] && events[..|events|] == events;
      PrefixesOfFront(events);
      Replay(front);
      ReplayStep(front, e);
    }
  }

  lemma PrefixesOfFront(events: seq<Event>)
    requires events != [] && forall n :: 0 <= n <= |events| ==> LedgerInvariant(events[..n])
    ensures var front := events[..|events| - 1];
            LedgerInvariant(front) && forall n :: 0 <= n <= |front| ==> LedgerInvariant(front[..n])
  {
    var front := events[..|events| - 1];
    forall n | 0 <= n <= |front|
      ensures LedgerInvariant(front[..n])
    {
      assert front[..n] == events[..n];
    }
  }

  lemma FreshId(events: seq<Event>, e: Event)
    requires DistinctIds(events + [e])
    ensures forall x :: x in events ==> x.governanceId != e.governanceId
  {
    forall i | 0 <= i < |events|
      ensures events[i].governanceId != e.governanceId
    {
      assert (events + [e])[i] == events[i] && (events + [e])[|events|] == e;
    }
  }

  lemma LatestLife(events: seq<Event>, e: Event)
    requires LedgerInvariant(events + [e])
    ensures ValidEvent(e) && Coherent(Ordered(KeyEvents(events, e.position) + [e]))
  {
    assert (events + [e])[|events|] == e && e in events + [e];
    KeyEventsAppend(events, e, e.position);
  }

  lemma LatestFolds(events: seq<Event>, e: Event)
    requires LedgerInvariant(events) && LedgerInvariant(events + [e])
    ensures Fold(Ordered(KeyEvents(events, e.position) + [e])).Success?
  {
    LatestLife(events, e);
    OrderedMembers(KeyEvents(events, e.position) + [e]);
    FoldCharacterised(Ordered(KeyEvents(events, e.position) + [e]));
  }

  lemma LatestQuantity(events: seq<Event>, e: Event)
    requires LedgerInvariant(events) && LedgerInvariant(events + [e])
    ensures EffectiveQuantity(KeyEvents(events, e.position), e) == Success(e.quantity)
  {
    if e.kind == Closed {
      LatestLife(events, e);
      FreshId(events, e);
      assert (events + [e])[|events|] == e && (events + [e])[..|events|] == events;
      assert ClosedAsStored(events + [e], |events|);
      EffectiveOfClose(KeyEvents(events, e.position), e, e.quantity);
    }
  }

  /** An event that would be stored as it is. */
  lemma StoredAsIs(events: seq<Event>, e: Event)
    requires ConstructionError(e) == None && !Duplicated(events, e)
    requires EffectiveQuantity(KeyEvents(events, e.position), e) == Success(e.quantity)
    requires Fold(Ordered(KeyEvents(events, e.position) + [e])).Success?
    ensures AppendResult(events, e) == Success(e)
  {
  }

  lemma ReplayStep(events: seq<Event>, e: Event)
    requires LedgerInvariant(events) && LedgerInvariant(events + [e])
    ensures AppendResult(events, e) == Success(e)
  {
    LatestLife(events, e);
    LatestFolds(events, e);
    LatestQuantity(events, e);
    FreshId(events, e);
    StoredAsIs(events, e);
  }

  /** The logs that runs of appends can produce are exactly those whose every prefix has the invariant. */
  lemma ReachableExactly(events: seq<Event>)
    ensures (exists attempts :: Run(attempts) == events)
       <==> (forall n :: 0 <= n <= |events| ==> LedgerInvariant(events[..n]))
  {
    if attempts :| Run(attempts) == events {
      forall n | 0 <= n <= |events|
        ensures LedgerInvariant(events[..n])
      {
        RunPrefixes(attempts, n);
      }
    }
    if forall n :: 0 <= n <= |events| ==> LedgerInvariant(events[..n]) {
      Replay(events);
    }
  }

  lemma EffectiveIgnoresOrder(a: seq<Event>, b: seq<Event>, candidate: Event)
    requires multiset(a) == multiset(b) && KeysDistinct(OrderLeq, a)
    ensures EffectiveQuantity(a, candidate) == EffectiveQuantity(b, candidate)
  {
    var pa, pb := Filter(Before(candidate), a), Filter(Before(candidate), b);
    FilterMultiset(Before(candidate), a, b);
    OrderIsTotal();
    SortPermutation(OrderLeq, pa, pb);
    assert |pa| == |multiset(pa)| == |multiset(pb)| == |pb|;
  }

  lemma RefoldIgnoresOrder(sa: seq<Event>, sb: seq<Event>, e: Event)
    requires multiset(sa) == multiset(sb) && KeysDistinct(OrderLeq, sa)
    requires forall x :: x in sa ==> x.governanceId != e.governanceId
    ensures Ordered(sa + [e]) == Ordered(sb + [e])
  {
    OrderIsTotal();
    assert KeysDistinct(OrderLeq, sa + [e]);
    SortPermutation(OrderLeq, sa + [e], sb + [e]);
  }

  /** The order in which the stored rows are read back does not change what an append does. */
  lemma ValidationIgnoresReadOrder(a: seq<Event>, b: seq<Event>, candidate: Event)
    requires multiset(a) == multiset(b) && DistinctIds(a)
    ensures ValidateAppended(a, candidate) == ValidateAppended(b, candidate)
  {
    SameMembers(a, b);
    assert Duplicated(a, candidate) == Duplicated(b, candidate);
    if !Duplicated(a, candidate) {
      var sa, sb := KeyEvents(a, candidate.position), KeyEvents(b, candidate.position);
      FilterMultiset(ForPosition(candidate.position), a, b);
      DistinctIdsFilter(a, candidate.position);
      EffectiveIgnoresOrder(sa, sb, candidate);
      var quantity := EffectiveQuantity(sa, candidate);
      if quantity.Success? {
        assert forall x :: x in sa ==> x in a;
        RefoldIgnoresOrder(sa, sb, candidate.(quantity := quantity.value));
      }
    }
  }

  class Ledger {
    var events: seq<Event>

    ghost predicate Valid()
      reads this
    {
      LedgerInvariant(events)
    }

    constructor ()
      ensures Valid() && events == []
    {
      events := [];
    }

    method Append(candidate: Event) returns (r: Result<Event, Rejection>)
      requires Valid()
      modifies this
      ensures Valid()
      ensures r == AppendResult(old(events), candidate)
      ensures events == if r.Success? then old(events) + [r.value] else old(events)
    {
      r := AppendResult(events, candidate);
      if r.Success? {
        AppendKeepsInvariant(events, candidate);
        events := events + [r.value];
      }
    }
  }
}
