/** Which historical studies may stand beside a research session, and in what order they are shown.

    Names, symbols and identities are numbers; the number of a runtime identity is the place of its text. Instants
    count microseconds from the earliest one. */
module HistoricalEvidence {
  import opened Wrappers
  import opened Sorting

  type Name = int

  type Symbol = int

  type InstrumentId = int

  const MICROSECONDS_PER_DAY: nat := 86400000000

  const STALENESS_DAYS: nat := 90

  /** Stands for a coverage that was never derived: the earliest instant. */
  const NO_COVERAGE_DERIVED: nat := 0

  const MINIMUM_WINDOW_COUNT: int := 2

  datatype Field =
    | StrategyId | StrategyVersion | RankingModelId | RankingModelVersion
    | RiskPolicyId | RiskPolicyVersion | SizingPolicyId | SizingPolicyVersion

  /** In the order of the checks. */
  const FIELDS: seq<Field> := [
    StrategyId, StrategyVersion, RankingModelId, RankingModelVersion,
    RiskPolicyId, RiskPolicyVersion, SizingPolicyId, SizingPolicyVersion
  ]

  datatype Classification = InsufficientSample | MembershipMechanicsProven

  datatype Window = Window(dataEnd: nat, evaluated: seq<InstrumentId>, eligible: seq<InstrumentId>)

  datatype Study = Study(
    runtimeId: int,
    policies: Field -> Name,
    windowCount: int,
    classification: Classification,
    windows: seq<Window>)

  /** What the session asks for. A policy field it does not carry is not compared. */
  datatype Session = Session(policies: Field -> Option<Name>, requested: seq<Symbol>, asOf: nat)

  type Master = Option<map<InstrumentId, Symbol>>

  datatype Status = Compatible | Incompatible | Stale | FutureEvidence

  datatype Reason =
    | Mismatch(field: Field)
    | TooFewWindows
    | WeakClassification
    | NoWindowResults
    | AfterTheSession
    | TooOld
    | NothingRequested
    | NeverEvaluated(missing: set<Symbol>)
    | NoEligibleWindow

  datatype Evaluation = Evaluation(status: Status, reasons: seq<Reason>, coverageEnd: nat, matched: seq<Symbol>)

  // ----- symbols -----

  /** The symbols of the instruments the master knows, in order of mention. */
  function Known(ids: seq<InstrumentId>, master: map<InstrumentId, Symbol>): seq<Symbol> {
    if ids == [] then []
    else
      var front, last := Known(ids[..|ids| - 1], master), ids[|ids| - 1];
      if last in master then front + [master[last]] else front
  }

  function Distinct(symbols: seq<Symbol>): (r: seq<Symbol>)
    ensures forall x :: x in r <==> x in symbols
  {
    if symbols == [] then []
    else
      var front, last := Distinct(symbols[..|symbols| - 1]), symbols[|symbols| - 1];
      if last in front then front else front + [last]
  }

  function SetOf(symbols: seq<Symbol>): set<Symbol> {
    set x | x in symbols
  }

  predicate SymbolLeq(a: Symbol, b: Symbol) {
    a <= b
  }

  function Resolved(ids: seq<InstrumentId>, master: Master): seq<Symbol> {
    match master
    case None => []
    case Some(known) => Sort(SymbolLeq, Distinct(Known(ids, known)))
  }

  method ResolveSymbols(ids: seq<InstrumentId>, master: Master) returns (r: seq<Symbol>)
    ensures r == Resolved(ids, master)
  {
    if master == None {
      return [];
    }
    var resolved: seq<Symbol> := [];
    for n := 0 to |ids|
      invariant resolved == Known(ids[..n], master.value)
    {
      assert ids[..n + 1][..n] == ids[..n];
      if ids[n] in master.value {
        resolved := resolved + [master.value[ids[n]]];
      }
    }
    assert ids[..|ids|] == ids;
    r := Sort(SymbolLeq, Distinct(resolved));
  }

  /** `x` is the symbol of one of the instruments. */
  ghost predicate Names(ids: seq<InstrumentId>, master: Master, x: Symbol) {
    master.Some? && exists k :: 0 <= k < |ids| && ids[k] in master.value && master.value[ids[k]] == x
  }

  lemma {:induction false} KnownExactly(ids: seq<InstrumentId>, master: map<InstrumentId, Symbol>, x: Symbol)
    ensures x in Known(ids, master) <==> Names(ids, Some(master), x)
  {
    if ids == [] {
    } else {
      var front := ids[..|ids| - 1];
      KnownExactly(front, master, x);
      if Names(front, Some(master), x) {
        var k :| 0 <= k < |front| && front[k] in master && master[front[k]] == x;
        assert ids[k] == front[k];
      }
      if Names(ids, Some(master), x) {
        var k :| 0 <= k < |ids| && ids[k] in master && master[ids[k]] == x;
        if k < |front| {
          assert front[k] == ids[k];
        }
      }
    }
  }

  /** Exactly the symbols of known instruments are resolved. */
  lemma ResolvedExactly(ids: seq<InstrumentId>, master: Master, x: Symbol)
    ensures x in Resolved(ids, master) <==> Names(ids, master, x)
  {
    if master.Some? {
      KnownExactly(ids, master.value, x);
      InSort(SymbolLeq, Distinct(Known(ids, master.value)), x);
    }
  }

  // ----- the compatibility rule -----

  function Differs(session: Session, study: Study): Field -> bool {
    (f: Field) => session.policies(f).Some? && session.policies(f).value != study.policies(f)
  }

  function MismatchOf(f: Field): Reason {
    Mismatch(f)
  }

  function Mismatches(session: Session, study: Study): seq<Reason> {
    Map(MismatchOf, Filter(Differs(session, study), FIELDS))
  }

  /** The latest end of any window. */
  function CoverageEnd(windows: seq<Window>): (end: nat)
    requires windows != []
    ensures forall w :: w in windows ==> w.dataEnd <= end
    ensures exists w :: w in windows && w.dataEnd == end
  {
    var last := windows[|windows| - 1];
    assert last in windows;
    if |windows| == 1 then last.dataEnd
    else
      var earlier := CoverageEnd(windows[..|windows| - 1]);
      if last.dataEnd > earlier then last.dataEnd else earlier
  }

  predicate Covers(resolved: seq<Symbol>, requested: seq<Symbol>) {
    forall x :: x in requested ==> x in resolved
  }

  /** The first window whose eligible symbols cover the request. */
  function FirstMatch(windows: seq<Window>, requested: seq<Symbol>, master: Master): Option<seq<Symbol>> {
    if windows == [] then None
    else
      match FirstMatch(windows[..|windows| - 1], requested, master)
      case Some(symbols) => Some(symbols)
      case None =>
        var eligible := Resolved(windows[|windows| - 1].eligible, master);
        if Covers(eligible, requested) then Some(eligible) else None
  }

  function AllEvaluated(windows: seq<Window>, master: Master): set<Symbol> {
    if windows == [] then {}
    else AllEvaluated(windows[..|windows| - 1], master) + SetOf(Resolved(windows[|windows| - 1].evaluated, master))
  }


  function EvaluateUniverse(study: Study, session: Session, master: Master, end: nat): Evaluation {
    var missing := SetOf(session.requested) - AllEvaluated(study.windows, master);
    if session.requested == [] then Evaluation(Incompatible, [NothingRequested], end, [])
    else if missing != {} then Evaluation(Incompatible, [NeverEvaluated(missing)], end, [])
    else
      match FirstMatch(study.windows, session.requested, master)
      case None => Evaluation(Incompatible, [NoEligibleWindow], end, [])
      case Some(symbols) => Evaluation(Compatible, [], end, symbols)
  }

  function Rejected(reasons: seq<Reason>): Evaluation {
    Evaluation(Incompatible, reasons, NO_COVERAGE_DERIVED, [])
  }

  predicate TooLongAgo(end: nat, asOf: nat) {
    asOf - end > STALENESS_DAYS * MICROSECONDS_PER_DAY
  }

  /** The rule, in the order of its checks. */
  function Evaluated(study: Study, session: Session, master: Master): Evaluation {
    var mismatches := Mismatches(session, study);
    if mismatches != [] then Rejected(mismatches)
    else if study.windowCount < MINIMUM_WINDOW_COUNT then Rejected([TooFewWindows])
    else if study.classification != MembershipMechanicsProven then Rejected([WeakClassification])
    else if study.windows == [] then Rejected([NoWindowResults])
    else
      var end := CoverageEnd(study.windows);
      if end > session.asOf then Evaluation(FutureEvidence, [AfterTheSession], end, [])
      else if TooLongAgo(end, session.asOf) then Evaluation(Stale, [TooOld], end, [])
      else EvaluateUniverse(study, session, master, end)
  }

  /** What the second loop variable says about the first match: nothing found is an empty list. */
  predicate Remembers(matched: seq<Symbol>, first: Option<seq<Symbol>>) {
    match first
    case None => matched == []
    case Some(symbols) => matched == symbols != []
  }

  lemma ScanNext(windows: seq<Window>, n: nat, requested: seq<Symbol>, master: Master, matched: seq<Symbol>)
    requires n < |windows| && requested != [] && Remembers(matched, FirstMatch(windows[..n], requested, master))
    ensures var eligible := Resolved(windows[n].eligible, master);
            Remembers(if matched == [] && Covers(eligible, requested) then eligible else matched,
                      FirstMatch(windows[..n + 1], requested, master))
    ensures AllEvaluated(windows[..n + 1], master)
         == AllEvaluated(windows[..n], master) + SetOf(Resolved(windows[n].evaluated, master))
  {
    assert windows[..n + 1] == windows[..n] + [windows[n]];
    FirstMatchNext(windows[..n], windows[n], requested, master);
    AllEvaluatedNext(windows[..n], windows[n], master);
    CoverIsNotEmpty(Resolved(windows[n].eligible, master), requested);
  }

  lemma FirstMatchNext(front: seq<Window>, last: Window, requested: seq<Symbol>, master: Master)
    ensures var eligible := Resolved(last.eligible, master);
            FirstMatch(front + [last], requested, master)
            == if FirstMatch(front, requested, master).Some? then FirstMatch(front, requested, master)
               else if Covers(eligible, requested) then Some(eligible) else None
  {
    assert (front + [last])[..|front|] == front;
  }

  lemma AllEvaluatedNext(front: seq<Window>, last: Window, master: Master)
    ensures AllEvaluated(front + [last], master)
         == AllEvaluated(front, master) + SetOf(Resolved(last.evaluated, master))
  {
    assert (front + [last])[..|front|] == front;
  }

  lemma CoverIsNotEmpty(eligible: seq<Symbol>, requested: seq<Symbol>)
    requires requested != []
    ensures Covers(eligible, requested) ==> eligible != []
  {
    var first := requested[0];
    assert first in requested;
  }

  /** The loop over the windows: the symbols evaluated anywhere, and the first eligible set that covers the request. */
  method ScanWindows(windows: seq<Window>, requested: seq<Symbol>, master: Master)
    returns (union: set<Symbol>, matched: seq<Symbol>)
    requires requested != []
    ensures union == AllEvaluated(windows, master)
    ensures Remembers(matched, FirstMatch(windows, requested, master))
  {
    union, matched := {}, [];
    for n := 0 to |windows|
      invariant union == AllEvaluated(windows[..n], master)
      invariant Remembers(matched, FirstMatch(windows[..n], requested, master))
    {
      ScanNext(windows, n, requested, master, matched);
      var evaluated := ResolveSymbols(windows[n].evaluated, master);
      var eligible := ResolveSymbols(windows[n].eligible, master);
      union := union + SetOf(evaluated);
      if matched == [] && Covers(eligible, requested) {
        matched := eligible;
      }
    }
    assert windows[..|windows|] == windows;
  }

  method EvaluateCompatibility(study: Study, session: Session, master: Master) returns (r: Evaluation)
    ensures r == Evaluated(study, session, master)
  {
    var mismatches := Mismatches(session, study);
    if mismatches != [] {
      return Rejected(mismatches);
    }
    if study.windowCount < MINIMUM_WINDOW_COUNT {
      return Rejected([TooFewWindows]);
    }
    if study.classification != MembershipMechanicsProven {
      return Rejected([WeakClassification]);
    }
    if study.windows == [] {
      return Rejected([NoWindowResults]);
    }
    var end := CoverageEnd(study.windows);
    if end > session.asOf {
      return Evaluation(FutureEvidence, [AfterTheSession], end, []);
    }
    if TooLongAgo(end, session.asOf) {
      return Evaluation(Stale, [TooOld], end, []);
    }
    if session.requested == [] {
      return Evaluation(Incompatible, [NothingRequested], end, []);
    }
    var union, matched := ScanWindows(study.windows, session.requested, master);
    var missing := SetOf(session.requested) - union;
    if missing != {} {
      return Evaluation(Incompatible, [NeverEvaluated(missing)], end, []);
    }
    if matched == [] {
      return Evaluation(Incompatible, [NoEligibleWindow], end, []);
    }
    return Evaluation(Compatible, [], end, matched);
  }

  // ----- what the rule says -----

  /** Everything the rule asks before it looks at the calendar and the universe. */
  ghost predicate Qualified(study: Study, session: Session) {
    && (forall f: Field :: session.policies(f).Some? ==> session.policies(f).value == study.policies(f))
    && study.windowCount >= MINIMUM_WINDOW_COUNT && study.classification == MembershipMechanicsProven
    && study.windows != []
  }

  /** Every requested symbol was evaluated in some window. */
  ghost predicate EvaluatedSomewhere(study: Study, session: Session, master: Master) {
    forall x :: x in session.requested ==> EvaluatedIn(study.windows, master, x)
  }

  /** Every requested symbol was eligible in window `k`. */
  ghost predicate EligibleIn(study: Study, session: Session, master: Master, k: nat) {
    k < |study.windows| && forall x :: x in session.requested ==> Names(study.windows[k].eligible, master, x)
  }

  ghost predicate EvaluatedIn(windows: seq<Window>, master: Master, x: Symbol) {
    exists k :: 0 <= k < |windows| && Names(windows[k].evaluated, master, x)
  }

  lemma EvaluatedNext(front: seq<Window>, last: Window, master: Master, x: Symbol)
    ensures EvaluatedIn(front + [last], master, x)
            <==> EvaluatedIn(front, master, x) || Names(last.evaluated, master, x)
  {
    var windows := front + [last];
    if EvaluatedIn(front, master, x) {
      var k :| 0 <= k < |front| && Names(front[k].evaluated, master, x);
      assert Names(windows[k].evaluated, master, x);
    }
    if Names(last.evaluated, master, x) {
      assert Names(windows[|front|].evaluated, master, x);
    }
  }

  lemma {:induction false} EvaluatedExactly(windows: seq<Window>, master: Master, x: Symbol)
    ensures x in AllEvaluated(windows, master) <==> EvaluatedIn(windows, master, x)
  {
    if windows == [] {
    } else {
      var front, last := windows[..|windows| - 1], windows[|windows| - 1];
      assert windows == front + [last];
      EvaluatedExactly(front, master, x);
      ResolvedExactly(last.evaluated, master, x);
      EvaluatedNext(front, last, master, x);
    }
  }

  ghost predicate CoversIn(windows: seq<Window>, requested: seq<Symbol>, master: Master, k: nat) {
    k < |windows| && Covers(Resolved(windows[k].eligible, master), requested)
  }

  ghost predicate FirstCover(windows: seq<Window>, requested: seq<Symbol>, master: Master, k: nat,
                             symbols: seq<Symbol>) {
    && CoversIn(windows, requested, master, k) && symbols == Resolved(windows[k].eligible, master)
    && forall j: nat :: j < k ==> !CoversIn(windows, requested, master, j)
  }

  ghost predicate IsFirstMatch(windows: seq<Window>, requested: seq<Symbol>, master: Master, r: Option<seq<Symbol>>) {
    match r
    case None => forall k: nat :: !CoversIn(windows, requested, master, k)
    case Some(symbols) => exists k: nat :: FirstCover(windows, requested, master, k, symbols)
  }

  lemma NoneSoFar(front: seq<Window>, last: Window, requested: seq<Symbol>, master: Master)
    requires IsFirstMatch(front, requested, master, None)
    ensures var eligible := Resolved(last.eligible, master);
            IsFirstMatch(front + [last], requested, master,
                         if Covers(eligible, requested) then Some(eligible) else None)
  {
    var windows, eligible := front + [last], Resolved(last.eligible, master);
    forall k: nat | k < |front|
      ensures !CoversIn(windows, requested, master, k)
    {
      assert !CoversIn(front, requested, master, k);
    }
    if Covers(eligible, requested) {
      assert FirstCover(windows, requested, master, |front|, eligible);
    }
  }

  lemma FoundAlready(front: seq<Window>, last: Window, requested: seq<Symbol>, master: Master, symbols: seq<Symbol>)
    requires IsFirstMatch(front, requested, master, Some(symbols))
    ensures IsFirstMatch(front + [last], requested, master, Some(symbols))
  {
    var windows := front + [last];
    var k: nat :| FirstCover(front, requested, master, k, symbols);
    forall j: nat | j < k
      ensures !CoversIn(windows, requested, master, j)
    {
      assert !CoversIn(front, requested, master, j);
    }
    assert FirstCover(windows, requested, master, k, symbols);
  }

  /** `FirstMatch` finds the first window that covers the request, if there is one. */
  lemma {:induction false} FirstMatchIsFirst(windows: seq<Window>, requested: seq<Symbol>, master: Master)
    ensures IsFirstMatch(windows, requested, master, FirstMatch(windows, requested, master))
  {
    if windows == [] {
    } else {
      var front, last := windows[..|windows| - 1], windows[|windows| - 1];
      assert windows == front + [last];
      FirstMatchIsFirst(front, requested, master);
      match FirstMatch(front, requested, master)
      case None => NoneSoFar(front, last, requested, master);
      case Some(symbols) => FoundAlready(front, last, requested, master, symbols);
    }
  }

  lemma CoversIsEligible(study: Study, session: Session, master: Master, k: nat)
    ensures CoversIn(study.windows, session.requested, master, k) <==> EligibleIn(study, session, master, k)
  {
    if k < |study.windows| {
      forall x | x in session.requested
        ensures x in Resolved(study.windows[k].eligible, master) <==> Names(study.windows[k].eligible, master, x)
      {
        ResolvedExactly(study.windows[k].eligible, master, x);
      }
    }
  }

  /** The window that is shown: the first in which everything requested was eligible. */
  ghost predicate FirstEligible(study: Study, session: Session, master: Master, k: nat) {
    EligibleIn(study, session, master, k) && forall j: nat :: j < k ==> !EligibleIn(study, session, master, j)
  }

  lemma UniverseRule(study: Study, session: Session, master: Master, end: nat)
    ensures var r := EvaluateUniverse(study, session, master, end);
            && (r.status == Compatible
                <==> session.requested != [] && EvaluatedSomewhere(study, session, master)
                     && exists k: nat :: EligibleIn(study, session, master, k))
            && (r.status == Compatible ==>
                  exists k: nat :: FirstEligible(study, session, master, k)
                                   && r.matched == Resolved(study.windows[k].eligible, master))
            && (r.status != Compatible ==> r.status == Incompatible && r.matched == [])
            && (r.reasons == [] <==> r.status == Compatible) && r.coverageEnd == end
  {
    MissingExactly(study, session, master);
    FirstMatchIsFirst(study.windows, session.requested, master);
    forall k: nat
      ensures CoversIn(study.windows, session.requested, master, k) <==> EligibleIn(study, session, master, k)
    {
      CoversIsEligible(study, session, master, k);
    }
  }

  lemma MissingExactly(study: Study, session: Session, master: Master)
    ensures SetOf(session.requested) - AllEvaluated(study.windows, master) == {}
            <==> EvaluatedSomewhere(study, session, master)
  {
    var missing := SetOf(session.requested) - AllEvaluated(study.windows, master);
    forall x | x in session.requested
      ensures x in missing <==> !EvaluatedIn(study.windows, master, x)
    {
      EvaluatedExactly(study.windows, master, x);
    }
    assert forall x :: x in missing ==> x in session.requested;
    if EvaluatedSomewhere(study, session, master) {
      assert forall x :: x !in missing;
    }
  }

  lemma EveryFieldListed(f: Field)
    ensures f in FIELDS
  {
    assert FIELDS[0] == StrategyId && FIELDS[1] == StrategyVersion && FIELDS[2] == RankingModelId
        && FIELDS[3] == RankingModelVersion && FIELDS[4] == RiskPolicyId && FIELDS[5] == RiskPolicyVersion
        && FIELDS[6] == SizingPolicyId && FIELDS[7] == SizingPolicyVersion;
  }

  lemma NoMismatch(study: Study, session: Session)
    ensures Mismatches(session, study) == []
       <==> forall f: Field :: session.policies(f).Some? ==> session.policies(f).value == study.policies(f)
  {
    var kept := Filter(Differs(session, study), FIELDS);
    assert |Mismatches(session, study)| == |kept|;
    if kept == [] {
      forall f: Field | true
        ensures session.policies(f).Some? ==> session.policies(f).value == study.policies(f)
      {
        EveryFieldListed(f);
        assert f !in kept;
      }
    } else {
      assert kept[0] in kept && Differs(session, study)(kept[0]);
    }
  }

  /** What a status means, each way. */
  ghost predicate StatusMeans(study: Study, session: Session, master: Master, r: Evaluation) {
    && (r.status == FutureEvidence <==> Qualified(study, session) && CoverageEnd(study.windows) > session.asOf)
    && (r.status == Stale <==>
          && Qualified(study, session) && CoverageEnd(study.windows) <= session.asOf
          && TooLongAgo(CoverageEnd(study.windows), session.asOf))
    && (r.status == Compatible <==> IsCompatible(study, session, master))
    && (r.reasons == [] <==> r.status == Compatible)
    && r.coverageEnd == (if Qualified(study, session) then CoverageEnd(study.windows) else NO_COVERAGE_DERIVED)
    && (r.status == Compatible ==>
          exists k: nat :: FirstEligible(study, session, master, k)
                           && r.matched == Resolved(study.windows[k].eligible, master))
    && (r.status != Compatible ==> r.matched == [])
  }

  ghost predicate IsCompatible(study: Study, session: Session, master: Master) {
    && Qualified(study, session) && CoverageEnd(study.windows) <= session.asOf
    && !TooLongAgo(CoverageEnd(study.windows), session.asOf) && session.requested != []
    && EvaluatedSomewhere(study, session, master) && exists k: nat :: EligibleIn(study, session, master, k)
  }

  /** The ordered checks decide exactly the conditions the rule is made of. */
  lemma RuleDecides(study: Study, session: Session, master: Master)
    ensures StatusMeans(study, session, master, Evaluated(study, session, master))
  {
    NoMismatch(study, session);
    if Qualified(study, session) {
      UniverseRule(study, session, master, CoverageEnd(study.windows));
    }
  }

  /** Compatible evidence stays compatible for ninety days after its coverage ends, then turns stale; it never
      becomes anything else with time. */
  lemma AgesIntoStale(study: Study, session: Session, master: Master, later: nat)
    requires Evaluated(study, session, master).status == Compatible && session.asOf <= later
    ensures Evaluated(study, session.(asOf := later), master).status
         == if TooLongAgo(CoverageEnd(study.windows), later) then Stale else Compatible
  {
    RuleDecides(study, session, master);
    RuleDecides(study, session.(asOf := later), master);
    var k: nat :| EligibleIn(study, session, master, k);
    assert EligibleIn(study, session.(asOf := later), master, k);
  }

  /** Asking for less keeps a compatible study compatible. */
  lemma SmallerRequestStays(study: Study, session: Session, master: Master, fewer: seq<Symbol>)
    requires Evaluated(study, session, master).status == Compatible
    requires fewer != [] && forall x :: x in fewer ==> x in session.requested
    ensures Evaluated(study, session.(requested := fewer), master).status == Compatible
  {
    RuleDecides(study, session, master);
    RuleDecides(study, session.(requested := fewer), master);
    var k: nat :| EligibleIn(study, session, master, k);
    assert EligibleIn(study, session.(requested := fewer), master, k);
  }

  /** Resolved symbols are listed in ascending order, each once. */
  lemma ResolvedAscending(ids: seq<InstrumentId>, master: Master)
    ensures var r := Resolved(ids, master); forall i, j :: 0 <= i < j < |r| ==> r[i] < r[j]
  {
    if master.Some? {
      var distinct := Distinct(Known(ids, master.value));
      DistinctOnce(Known(ids, master.value));
      SortSorted(SymbolLeq, distinct);
      SortDistinct(SymbolLeq, Same, distinct);
      var r := Sort(SymbolLeq, distinct);
      forall i, j | 0 <= i < j < |r|
        ensures r[i] < r[j]
      {
        assert SymbolLeq(r[i], r[j]) && Same(r[i]) != Same(r[j]);
      }
    }
  }

  function Same(x: Symbol): Symbol {
    x
  }

  lemma {:induction false} DistinctOnce(symbols: seq<Symbol>)
    ensures DistinctBy(Same, Distinct(symbols))
  {
    if symbols == [] {
    } else {
      DistinctOnce(symbols[..|symbols| - 1]);
    }
  }
}
