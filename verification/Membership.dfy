/** Effective-dated universe membership: the checks a manifest's constructor makes, and which instruments are
    eligible at a cutoff.

    Instants, instruments and universe names are numbers: only their equality and order matter. */
module Membership {
  import opened Wrappers
  import opened Sorting
  import opened Grouping

  type Instrument = int

  datatype Status = Active | Inactive | DelistedLike | InactiveLike

  datatype RecordData = RecordData(
    universe: int,
    version: int,
    instrument: Instrument,
    effectiveFrom: int,
    effectiveTo: Option<int>,
    status: Status)

  /** A record as its constructor admits it: an end, when there is one, is strictly after the start. */
  type Record = r: RecordData | r.effectiveTo.Some? ==> r.effectiveTo.value > r.effectiveFrom
    witness RecordData(0, 0, 0, 0, None, Active)

  datatype Manifest = Manifest(universe: int, version: int, records: seq<Record>)

  datatype ManifestError =
    | NoRecords
    | ForeignRecord
    | DuplicateStart(instrument: Instrument)
    | OpenEndedFollowed(instrument: Instrument)
    | Overlapping(instrument: Instrument)

  /** `cutoff` lies in the half-open interval of `r`, whatever its status. */
  predicate Covers(r: Record, cutoff: int) {
    if cutoff < r.effectiveFrom then false
    else if r.effectiveTo.Some? && cutoff >= r.effectiveTo.value then false
    else true
  }

  ghost predicate Disjoint(a: Record, b: Record) {
    forall t :: !(Covers(a, t) && Covers(b, t))
  }

  /** No two records of one instrument ever hold at the same instant. */
  ghost predicate PairwiseDisjoint(records: seq<Record>) {
    forall i, j :: 0 <= i < j < |records| && records[i].instrument == records[j].instrument ==>
      Disjoint(records[i], records[j])
  }

  predicate Belongs(m: Manifest, r: Record) {
    r.universe == m.universe && r.version == m.version
  }

  predicate AllBelong(m: Manifest) {
    forall r :: r in m.records ==> Belongs(m, r)
  }

  predicate SameStart(a: Record, b: Record) {
    a.instrument == b.instrument && a.effectiveFrom == b.effectiveFrom
  }

  predicate DistinctStarts(records: seq<Record>) {
    forall i, j :: 0 <= i < j < |records| ==> !SameStart(records[i], records[j])
  }

  function InstrumentOf(r: Record): Instrument {
    r.instrument
  }

  predicate StartsLeq(a: Record, b: Record) {
    a.effectiveFrom <= b.effectiveFrom
  }

  /** The check of one adjacent pair. */
  predicate Follows(previous: Record, current: Record) {
    previous.effectiveTo.Some? && current.effectiveFrom >= previous.effectiveTo.value
  }

  predicate AdjacentFollow(ordered: seq<Record>) {
    forall k :: 0 <= k < |ordered| - 1 ==> Follows(ordered[k], ordered[k + 1])
  }

  // ----- the adjacent check decides all pairs -----

  lemma {:induction false} FollowsLater(ordered: seq<Record>, i: nat, j: nat)
    requires AdjacentFollow(ordered) && i < j < |ordered|
    ensures Follows(ordered[i], ordered[j])
    decreases j - i
  {
    if j == i + 1 {
    } else {
      FollowsLater(ordered, i, j - 1);
      assert Follows(ordered[j - 1], ordered[j]);
    }
  }

  /** Among records that start in order, to follow is to be disjoint. */
  lemma FollowsIffDisjoint(a: Record, b: Record)
    requires a.effectiveFrom < b.effectiveFrom
    ensures Follows(a, b) <==> Disjoint(a, b)
  {
    if !Follows(a, b) {
      assert Covers(a, b.effectiveFrom) && Covers(b, b.effectiveFrom);
    }
  }

  ghost predicate AllDisjoint(s: seq<Record>) {
    forall i, j :: 0 <= i < j < |s| ==> Disjoint(s[i], s[j])
  }

  lemma AdjacentDecides(ordered: seq<Record>)
    requires forall i, j :: 0 <= i < j < |ordered| ==> ordered[i].effectiveFrom < ordered[j].effectiveFrom
    ensures AdjacentFollow(ordered) <==> AllDisjoint(ordered)
  {
    if AdjacentFollow(ordered) {
      forall i, j | 0 <= i < j < |ordered|
        ensures Disjoint(ordered[i], ordered[j])
      {
        FollowsLater(ordered, i, j);
        FollowsIffDisjoint(ordered[i], ordered[j]);
      }
    }
    if AllDisjoint(ordered) {
      forall k | 0 <= k < |ordered| - 1
        ensures Follows(ordered[k], ordered[k + 1])
      {
        FollowsIffDisjoint(ordered[k], ordered[k + 1]);
      }
    }
  }

  ghost predicate MembersDisjoint(s: seq<Record>) {
    forall x, y :: x in s && y in s && x != y && x.instrument == y.instrument ==> Disjoint(x, y)
  }

  lemma ByMembers(records: seq<Record>)
    requires DistinctStarts(records)
    ensures PairwiseDisjoint(records) <==> MembersDisjoint(records)
  {
    if MembersDisjoint(records) {
      forall i, j | 0 <= i < j < |records| && records[i].instrument == records[j].instrument
        ensures Disjoint(records[i], records[j])
      {
        assert !SameStart(records[i], records[j]);
      }
    }
    if PairwiseDisjoint(records) {
      forall x, y | x in records && y in records && x != y && x.instrument == y.instrument
        ensures Disjoint(x, y)
      {
        var i :| 0 <= i < |records| && records[i] == x;
        var j :| 0 <= j < |records| && records[j] == y;
        assert Disjoint(records[if i < j then i else j], records[if i < j then j else i]);
      }
    }
  }

  function StartOf(r: Record): int {
    r.effectiveFrom
  }

  lemma OwnStartsDistinct(records: seq<Record>, i: Instrument)
    requires DistinctStarts(records)
    ensures DistinctBy(StartOf, Filter(WithKey(InstrumentOf, i), records))
  {
    var own := Filter(WithKey(InstrumentOf, i), records);
    StartsAreKeys(records);
    FilterDistinct(KeyOf, WithKey(InstrumentOf, i), records);
    forall j, k | 0 <= j < k < |own|
      ensures StartOf(own[j]) != StartOf(own[k])
    {
      KeyedBy(InstrumentOf, i, own[j]);
      KeyedBy(InstrumentOf, i, own[k]);
      assert KeyOf(own[j]) != KeyOf(own[k]);
    }
  }

  lemma StartsAreKeys(records: seq<Record>)
    requires DistinctStarts(records)
    ensures DistinctBy(KeyOf, records)
  {
    forall j, k | 0 <= j < k < |records|
      ensures KeyOf(records[j]) != KeyOf(records[k])
    {
      assert !SameStart(records[j], records[k]);
    }
  }

  /** The records of `i` as the check sees them: by start. */
  function Timeline(records: seq<Record>, i: Instrument): seq<Record> {
    Sort(StartsLeq, Filter(WithKey(InstrumentOf, i), records))
  }

  lemma TimelineAscends(records: seq<Record>, i: Instrument)
    requires DistinctStarts(records)
    ensures var t := Timeline(records, i);
            forall j, k :: 0 <= j < k < |t| ==> t[j].effectiveFrom < t[k].effectiveFrom
  {
    OwnStartsDistinct(records, i);
    SortDistinct(StartsLeq, StartOf, Filter(WithKey(InstrumentOf, i), records));
    SortSorted(StartsLeq, Filter(WithKey(InstrumentOf, i), records));
    var t := Timeline(records, i);
    forall j, k | 0 <= j < k < |t|
      ensures t[j].effectiveFrom < t[k].effectiveFrom
    {
      assert StartsLeq(t[j], t[k]) && StartOf(t[j]) != StartOf(t[k]);
    }
  }

  lemma InTimeline(records: seq<Record>, i: Instrument, r: Record)
    ensures r in Timeline(records, i) <==> r in records && r.instrument == i
  {
    KeyedBy(InstrumentOf, i, r);
    InSort(StartsLeq, Filter(WithKey(InstrumentOf, i), records), r);
  }

  lemma AscendingByMembers(t: seq<Record>)
    requires forall j, k :: 0 <= j < k < |t| ==> t[j].effectiveFrom < t[k].effectiveFrom
    requires forall x, y :: x in t && y in t ==> x.instrument == y.instrument
    ensures AllDisjoint(t) <==> MembersDisjoint(t)
  {
    assert DistinctStarts(t);
    ByMembers(t);
    assert forall i, j :: 0 <= i < j < |t| ==> t[i].instrument == t[j].instrument;
  }

  /** One instrument's adjacent pairs decide all of its pairs. */
  lemma TimelineDecides(records: seq<Record>, i: Instrument)
    requires DistinctStarts(records)
    ensures AdjacentFollow(Timeline(records, i))
       <==> (forall x, y :: x in records && y in records && x != y && x.instrument == y.instrument == i ==>
                              Disjoint(x, y))
  {
    var t := Timeline(records, i);
    forall r: Record | true
      ensures r in t <==> r in records && r.instrument == i
    {
      InTimeline(records, i, r);
    }
    TimelineAscends(records, i);
    AdjacentDecides(t);
    AscendingByMembers(t);
  }

  function Orderly(records: seq<Record>): Instrument -> bool {
    (i: Instrument) => AdjacentFollow(Timeline(records, i))
  }

  /** Every instrument's timeline passes the adjacent check. */
  predicate AllFollow(records: seq<Record>) {
    forall r :: r in records ==> Orderly(records)(InstrumentOf(r))
  }

  /** The adjacent checks of all instruments decide all pairs of the manifest. */
  lemma TimelinesDecide(records: seq<Record>)
    requires DistinctStarts(records)
    ensures PairwiseDisjoint(records) <==> AllFollow(records)
  {
    ByMembers(records);
    forall r | r in records
      ensures AdjacentFollow(Timeline(records, r.instrument))
         <==> (forall x, y :: x in records && y in records && x != y && x.instrument == y.instrument == r.instrument ==>
                 Disjoint(x, y))
    {
      TimelineDecides(records, r.instrument);
    }
  }

  lemma SameStartClashes(a: Record, b: Record)
    requires a.effectiveFrom == b.effectiveFrom
    ensures !Disjoint(a, b)
  {
    assert Covers(a, a.effectiveFrom) && Covers(b, a.effectiveFrom);
  }

  lemma DisjointStartsDistinct(records: seq<Record>)
    requires PairwiseDisjoint(records)
    ensures DistinctStarts(records)
  {
    forall i, j | 0 <= i < j < |records|
      ensures !SameStart(records[i], records[j])
    {
      if SameStart(records[i], records[j]) {
        SameStartClashes(records[i], records[j]);
      }
    }
  }

  // ----- the constructor's checks -----

  /** `seen` are the instruments and starts of `records`. */
  ghost predicate Seen(records: seq<Record>, seen: set<Start>) {
    forall x :: x in seen <==> exists k :: 0 <= k < |records| && KeyOf(records[k]) == x
  }

  datatype Start = Start(instrument: Instrument, effectiveFrom: int)

  function KeyOf(r: Record): Start {
    Start(r.instrument, r.effectiveFrom)
  }

  lemma SeenNext(records: seq<Record>, seen: set<Start>, n: nat)
    requires n < |records| && Seen(records[..n], seen)
    ensures Seen(records[..n + 1], seen + {KeyOf(records[n])})
  {
    var next := seen + {KeyOf(records[n])};
    var shorter, longer := records[..n], records[..n + 1];
    assert longer == shorter + [records[n]];
    forall x | x in next
      ensures exists k :: 0 <= k < |longer| && KeyOf(longer[k]) == x
    {
      if x in seen {
        var k :| 0 <= k < |shorter| && KeyOf(shorter[k]) == x;
        assert KeyOf(longer[k]) == x;
      } else {
        assert KeyOf(longer[n]) == x;
      }
    }
  }

  lemma NewStart(records: seq<Record>, seen: set<Start>, n: nat)
    requires n < |records| && Seen(records[..n], seen) && DistinctStarts(records[..n])
    requires KeyOf(records[n]) !in seen
    ensures DistinctStarts(records[..n + 1])
  {
    forall k | 0 <= k < n
      ensures !SameStart(records[k], records[n])
    {
      assert KeyOf(records[..n][k]) in seen;
    }
  }

  /** Two records of the instrument `error` names share a start. */
  ghost predicate Duplicated(records: seq<Record>, error: ManifestError) {
    exists i, j :: 0 <= i < j < |records| && SameStart(records[i], records[j])
                && error == DuplicateStart(records[j].instrument)
  }

  lemma OldStart(records: seq<Record>, seen: set<Start>, n: nat)
    requires n < |records| && Seen(records[..n], seen)
    requires KeyOf(records[n]) in seen
    ensures Duplicated(records, DuplicateStart(records[n].instrument))
  {
  }

  method GroupByInstrument(records: seq<Record>)
    returns (error: Option<ManifestError>, instruments: seq<Instrument>, groups: Groups<Record>)
    ensures error == None <==> DistinctStarts(records)
    ensures error == None ==> Grouped(InstrumentOf, records, instruments, groups)
    ensures error.Some? ==> Duplicated(records, error.value)
  {
    var seenStarts: set<Start> := {};
    instruments, groups := [], map[];
    for n := 0 to |records|
      invariant DistinctStarts(records[..n]) && Grouped(InstrumentOf, records[..n], instruments, groups)
      invariant Seen(records[..n], seenStarts)
    {
      var r := records[n];
      var key := KeyOf(r);
      if key in seenStarts {
        OldStart(records, seenStarts, n);
        return Some(DuplicateStart(r.instrument)), instruments, groups;
      }
      NewStart(records, seenStarts, n);
      SeenNext(records, seenStarts, n);
      seenStarts := seenStarts + {key};
      FiledNext(InstrumentOf, records, n, instruments, groups);
      instruments := Mention(instruments, groups, r.instrument);
      groups := File(groups, r.instrument, r);
    }
    assert records[..|records|] == records;
    error := None;
  }

  /** A later record of the instrument `error` names starts while an earlier one holds. */
  ghost predicate Clashes(records: seq<Record>, error: ManifestError) {
    exists x, y :: x in records && y in records && x.instrument == y.instrument && x.effectiveFrom <= y.effectiveFrom
                && !Follows(x, y) && error == ClashOf(x)
  }

  function ClashOf(earlier: Record): ManifestError {
    if earlier.effectiveTo == None then OpenEndedFollowed(earlier.instrument) else Overlapping(earlier.instrument)
  }

  /** The first `n` adjacent pairs pass. */
  ghost predicate FollowUpTo(ordered: seq<Record>, n: int) {
    forall j :: 0 <= j < n && j + 1 < |ordered| ==> Follows(ordered[j], ordered[j + 1])
  }

  lemma NoClash(records: seq<Record>, i: Instrument, n: int)
    requires FollowUpTo(Timeline(records, i), n) && n + 1 >= |Timeline(records, i)|
    ensures Orderly(records)(i)
  {
  }

  method CheckTimeline(records: seq<Record>, i: Instrument, own: seq<Record>) returns (error: Option<ManifestError>)
    requires own == Filter(WithKey(InstrumentOf, i), records)
    ensures error == None <==> Orderly(records)(i)
    ensures error.Some? ==> Clashes(records, error.value)
  {
    var ordered := Sort(StartsLeq, own);
    assert ordered == Timeline(records, i);
    var k := 1;
    while k < |ordered|
      invariant k >= 1 && FollowUpTo(ordered, k - 1)
    {
      var previous, current := ordered[k - 1], ordered[k];
      if previous.effectiveTo == None || current.effectiveFrom < previous.effectiveTo.value {
        ClashFound(records, i, k - 1);
        return Some(ClashOf(previous));
      }
      k := k + 1;
    }
    NoClash(records, i, k - 1);
    error := None;
  }

  lemma ClashFound(records: seq<Record>, i: Instrument, k: nat)
    requires k + 1 < |Timeline(records, i)| && !Follows(Timeline(records, i)[k], Timeline(records, i)[k + 1])
    ensures Clashes(records, ClashOf(Timeline(records, i)[k])) && !Orderly(records)(i)
  {
    var t := Timeline(records, i);
    SortSorted(StartsLeq, Filter(WithKey(InstrumentOf, i), records));
    assert StartsLeq(t[k], t[k + 1]);
    InTimeline(records, i, t[k]);
    InTimeline(records, i, t[k + 1]);
  }

  method OwnsRecords(m: Manifest) returns (own: bool)
    ensures own <==> AllBelong(m)
  {
    for n := 0 to |m.records|
      invariant forall k :: 0 <= k < n ==> Belongs(m, m.records[k])
    {
      if !Belongs(m, m.records[n]) {
        return false;
      }
    }
    return true;
  }

  ghost predicate Accepted(m: Manifest) {
    m.records != [] && AllBelong(m) && PairwiseDisjoint(m.records)
  }

  /** What a refusal says is so, and nothing checked before it is wrong. */
  ghost predicate Justified(m: Manifest, error: ManifestError) {
    match error
    case NoRecords => m.records == []
    case ForeignRecord => m.records != [] && !AllBelong(m)
    case _ => AllBelong(m) && RecordsAtFault(m.records, error)
  }

  ghost predicate RecordsAtFault(records: seq<Record>, error: ManifestError) {
    match error
    case NoRecords => false
    case ForeignRecord => false
    case DuplicateStart(_) => Duplicated(records, error)
    case _ => DistinctStarts(records) && Clashes(records, error)
  }

  lemma AcceptedIff(m: Manifest)
    ensures Accepted(m) <==> m.records != [] && AllBelong(m) && DistinctStarts(m.records) && AllFollow(m.records)
  {
    if PairwiseDisjoint(m.records) {
      DisjointStartsDistinct(m.records);
    }
    if DistinctStarts(m.records) {
      TimelinesDecide(m.records);
    }
  }

  /** The manifest is accepted exactly when it has records, all its own, and no two records of one instrument ever
      hold at the same instant; a refusal names what is wrong. */
  method Validate(m: Manifest) returns (error: Option<ManifestError>)
    ensures error == None <==> Accepted(m)
    ensures error.Some? ==> Justified(m, error.value)
  {
    AcceptedIff(m);
    if m.records == [] {
      return Some(NoRecords);
    }
    var own := OwnsRecords(m);
    if !own {
      return Some(ForeignRecord);
    }
    error := CheckIntervals(m.records);
  }

  method CheckIntervals(records: seq<Record>) returns (error: Option<ManifestError>)
    ensures error == None <==> DistinctStarts(records) && AllFollow(records)
    ensures error.Some? ==> RecordsAtFault(records, error.value)
  {
    var duplicate, instruments, groups := GroupByInstrument(records);
    if duplicate.Some? {
      DuplicateIsFault(records, duplicate.value);
      return duplicate;
    }
    KeysCover(InstrumentOf, records, instruments, groups, Orderly(records));
    error := CheckTimelines(records, instruments, groups);
    if error.Some? {
      ClashIsFault(records, error.value);
    }
  }

  lemma DuplicateIsFault(records: seq<Record>, error: ManifestError)
    requires Duplicated(records, error)
    ensures RecordsAtFault(records, error) && !DistinctStarts(records)
  {
  }

  lemma ClashIsFault(records: seq<Record>, error: ManifestError)
    requires DistinctStarts(records) && Clashes(records, error)
    ensures RecordsAtFault(records, error)
  {
  }

  /** One after the other, in the order in which the instruments first occur. */
  method CheckTimelines(records: seq<Record>, instruments: seq<Instrument>, groups: Groups<Record>)
    returns (error: Option<ManifestError>)
    requires forall k :: 0 <= k < |instruments| ==> Filed(InstrumentOf, records, instruments[k], groups)
    ensures error == None <==> forall k :: 0 <= k < |instruments| ==> Orderly(records)(instruments[k])
    ensures error.Some? ==> Clashes(records, error.value)
  {
    for k := 0 to |instruments|
      invariant forall j :: 0 <= j < k ==> Orderly(records)(instruments[j])
    {
      assert Filed(InstrumentOf, records, instruments[k], groups);
      error := CheckTimeline(records, instruments[k], groups[instruments[k]]);
      if error.Some? {
        return;
      }
    }
    error := None;
  }

  // ----- eligibility -----

  /** At most one record of an instrument holds at any instant. */
  lemma AtMostOneCovers(records: seq<Record>, i: nat, j: nat, cutoff: int)
    requires PairwiseDisjoint(records) && i < |records| && j < |records|
    requires records[i].instrument == records[j].instrument && Covers(records[i], cutoff) && Covers(records[j], cutoff)
    ensures i == j
  {
  }

  predicate Eligible(r: Record, cutoff: int) {
    r.status == Active && Covers(r, cutoff)
  }

  predicate Ascending(s: seq<Instrument>) {
    forall i, j :: 0 <= i < j < |s| ==> s[i] < s[j]
  }

  /** `r` lists, once each and in order, the instruments with an eligible record. */
  ghost predicate IsUniverse(records: seq<Record>, cutoff: int, r: seq<Instrument>) {
    && Ascending(r)
    && forall i ::
         i in r <==> exists k :: 0 <= k < |records| && records[k].instrument == i && Eligible(records[k], cutoff)
  }

  predicate InstrumentLeq(a: Instrument, b: Instrument) {
    a <= b
  }

  function Same(i: Instrument): int {
    i
  }

  /** The members of a set, sorted. */
  method Sorted(s: set<Instrument>) returns (r: seq<Instrument>)
    ensures Ascending(r) && forall i :: i in r <==> i in s
  {
    var rest, members := s, [];
    while rest != {}
      invariant rest <= s && DistinctBy(Same, members)
      invariant forall i :: i in members <==> i in s && i !in rest
      decreases |rest|
    {
      ghost var some := Inhabited(rest);
      var i :| i in rest;
      rest := rest - {i};
      members := members + [i];
    }
    r := Sort(InstrumentLeq, members);
    SortSorted(InstrumentLeq, members);
    SortDistinct(InstrumentLeq, Same, members);
    forall i: Instrument | true
      ensures i in r <==> i in members
    {
      InSort(InstrumentLeq, members, i);
    }
    forall i, j | 0 <= i < j < |r|
      ensures r[i] < r[j]
    {
      assert InstrumentLeq(r[i], r[j]) && Same(r[i]) != Same(r[j]);
    }
  }

  method UniverseAt(m: Manifest, cutoff: int) returns (r: seq<Instrument>)
    ensures IsUniverse(m.records, cutoff, r)
  {
    var eligible: set<Instrument> := {};
    for n := 0 to |m.records|
      invariant forall i :: i in eligible
                  <==> exists k :: 0 <= k < n && m.records[k].instrument == i && Eligible(m.records[k], cutoff)
    {
      if Eligible(m.records[n], cutoff) {
        eligible := eligible + {m.records[n].instrument};
      }
    }
    r := Sorted(eligible);
  }

  lemma {:induction false} AscendingUnique(a: seq<Instrument>, b: seq<Instrument>)
    requires Ascending(a) && Ascending(b) && forall i :: i in a <==> i in b
    ensures a == b
  {
    assert b != [] ==> b[0] in b;
    if a == [] {
    } else {
      assert a[0] in a && a[0] in b && b[0] in a;
      assert a[0] == b[0];
      forall i: Instrument | true
        ensures i in a[1..] <==> i in b[1..]
      {
        assert i in a[1..] <==> i in a && i != a[0];
        assert i in b[1..] <==> i in b && i != b[0];
      }
      AscendingUnique(a[1..], b[1..]);
    }
  }

  /** The universe depends on which records there are, not on their order or repetition. */
  lemma UniverseIgnoresOrder(a: seq<Record>, b: seq<Record>, cutoff: int, ra: seq<Instrument>, rb: seq<Instrument>)
    requires forall r :: r in a <==> r in b
    requires IsUniverse(a, cutoff, ra) && IsUniverse(b, cutoff, rb)
    ensures ra == rb
  {
    forall i: Instrument | true
      ensures i in ra <==> i in rb
    {
      if i in ra {
        var k :| 0 <= k < |a| && a[k].instrument == i && Eligible(a[k], cutoff);
        assert a[k] in b;
      }
      if i in rb {
        var k :| 0 <= k < |b| && b[k].instrument == i && Eligible(b[k], cutoff);
        assert b[k] in a;
      }
    }
    AscendingUnique(ra, rb);
  }

  /** In an accepted manifest the covering record alone decides: a record that covers the cutoff with any other
      status keeps its instrument out, whatever else the manifest says about it. */
  lemma CoveringRecordDecides(m: Manifest, cutoff: int, r: seq<Instrument>, k: nat)
    requires PairwiseDisjoint(m.records) && IsUniverse(m.records, cutoff, r)
    requires k < |m.records| && Covers(m.records[k], cutoff)
    ensures m.records[k].instrument in r <==> m.records[k].status == Active
  {
    if m.records[k].instrument in r {
      var j :| 0 <= j < |m.records| && m.records[j].instrument == m.records[k].instrument
               && Eligible(m.records[j], cutoff);
      AtMostOneCovers(m.records, j, k, cutoff);
    }
  }

  /** A record holds from its start on, its end excluded, and without an end for ever. */
  lemma HoldsHalfOpen(r: Record, cutoff: int)
    ensures Covers(r, cutoff)
       <==> r.effectiveFrom <= cutoff && (r.effectiveTo.Some? ==> cutoff < r.effectiveTo.value)
    ensures Covers(r, r.effectiveFrom) && (r.effectiveTo.Some? ==> !Covers(r, r.effectiveTo.value))
  {
  }

  /** Two records never hold together exactly when one of them ends before the other starts, or as it does. */
  lemma DisjointExactly(a: Record, b: Record)
    ensures Disjoint(a, b)
       <==> (a.effectiveTo.Some? && a.effectiveTo.value <= b.effectiveFrom)
            || (b.effectiveTo.Some? && b.effectiveTo.value <= a.effectiveFrom)
  {
    if Disjoint(a, b) {
      assert !(Covers(a, a.effectiveFrom) && Covers(b, a.effectiveFrom));
      assert !(Covers(a, b.effectiveFrom) && Covers(b, b.effectiveFrom));
    }
  }

  /** The universe at a cutoff is made of the instruments with an ACTIVE record that has started and not ended. */
  lemma UniverseMeans(records: seq<Record>, cutoff: int, r: seq<Instrument>, i: Instrument)
    requires IsUniverse(records, cutoff, r)
    ensures i in r <==>
              exists x :: x in records && x.instrument == i && x.status == Active && x.effectiveFrom <= cutoff
                          && (x.effectiveTo.Some? ==> cutoff < x.effectiveTo.value)
  {
    if x :| x in records && x.instrument == i && x.status == Active && x.effectiveFrom <= cutoff
            && (x.effectiveTo.Some? ==> cutoff < x.effectiveTo.value) {
      var k :| 0 <= k < |records| && records[k] == x;
      assert records[k].instrument == i && Eligible(records[k], cutoff);
    }
  }
}
