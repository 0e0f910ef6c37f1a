/** The search over candidate studies: one summary each, ranked by two stable sorts, at most one selected. */
module EvidenceSearch {
  import opened Wrappers
  import opened Sorting
  import opened StableSorting
  import opened HistoricalEvidence

  /** A portfolio report and the study it says it was derived from. */
  datatype Report = Report(sourceStudy: int, content: int)

  type Reports = map<int, Report>

  datatype Summary = Summary(study: Study, evaluation: Evaluation, report: Option<Report>, selected: bool)

  /** A report filed under the study's identity but derived from another study is dropped. */
  function ReportFor(reports: Reports, study: Study): Option<Report> {
    if study.runtimeId in reports && reports[study.runtimeId].sourceStudy == study.runtimeId
    then Some(reports[study.runtimeId]) else None
  }

  function SummaryOf(session: Session, reports: Reports, master: Master): Study -> Summary {
    (study: Study) => Summary(study, Evaluated(study, session, master), ReportFor(reports, study), false)
  }

  function Summaries(session: Session, reports: Reports, master: Master, candidates: seq<Study>): seq<Summary> {
    Map(SummaryOf(session, reports, master), candidates)
  }

  predicate IsCompatibleSummary(s: Summary) {
    s.evaluation.status == Compatible
  }

  predicate IsOther(s: Summary) {
    s.evaluation.status != Compatible
  }

  /** `(coverage_end, runtime_id)`, ascending. */
  predicate AscendingLeq(a: Summary, b: Summary) {
    a.evaluation.coverageEnd < b.evaluation.coverageEnd
    || (a.evaluation.coverageEnd == b.evaluation.coverageEnd && a.study.runtimeId <= b.study.runtimeId)
  }

  /** `coverage_end`, descending. */
  predicate LatestLeq(a: Summary, b: Summary) {
    a.evaluation.coverageEnd >= b.evaluation.coverageEnd
  }

  /** Later coverage first, then the lower identity. */
  predicate EvidenceLeq(a: Summary, b: Summary) {
    a.evaluation.coverageEnd > b.evaluation.coverageEnd
    || (a.evaluation.coverageEnd == b.evaluation.coverageEnd && a.study.runtimeId <= b.study.runtimeId)
  }

  function Part(keep: Summary -> bool, summaries: seq<Summary>): seq<Summary> {
    Sort(LatestLeq, Sort(AscendingLeq, Filter(keep, summaries)))
  }

  function Ranking(summaries: seq<Summary>): seq<Summary> {
    Part(IsCompatibleSummary, summaries) + Part(IsOther, summaries)
  }

  function Select(s: Summary): Summary {
    s.(selected := true)
  }

  /** The first summary is selected if it is compatible. */
  function WithSelection(ranked: seq<Summary>): seq<Summary> {
    if ranked != [] && IsCompatibleSummary(ranked[0]) then ranked[0 := Select(ranked[0])] else ranked
  }

  function Found(session: Session, reports: Reports, master: Master, candidates: seq<Study>): seq<Summary> {
    WithSelection(Ranking(Summaries(session, reports, master, candidates)))
  }

  /** Compatible summaries stand before all others. */
  predicate CompatibleFirst(s: seq<Summary>) {
    forall i, j :: 0 <= i < j < |s| && IsCompatibleSummary(s[j]) ==> IsCompatibleSummary(s[i])
  }

  /** The loop that marks the selected summary. */
  method MarkSelected(ranked: seq<Summary>) returns (final: seq<Summary>)
    requires CompatibleFirst(ranked)
    ensures final == WithSelection(ranked)
  {
    var selectedCount := 0;
    final := [];
    for n := 0 to |ranked|
      invariant selectedCount == if n > 0 && IsCompatibleSummary(ranked[0]) then 1 else 0
      invariant final == WithSelection(ranked[..n])
    {
      var summary := ranked[n];
      assert ranked[..n + 1] == ranked[..n] + [summary];
      if IsCompatibleSummary(summary) && selectedCount == 0 {
        summary := Select(summary);
        selectedCount := selectedCount + 1;
      }
      final := final + [summary];
    }
    assert ranked[..|ranked|] == ranked;
  }

  method FindCompatibleEvidence(session: Session, reports: Reports, master: Master, candidates: seq<Study>)
    returns (final: seq<Summary>)
    ensures final == Found(session, reports, master, candidates)
  {
    var summaries: seq<Summary> := [];
    for n := 0 to |candidates|
      invariant summaries == Summaries(session, reports, master, candidates[..n])
    {
      var study := candidates[n];
      assert candidates[..n + 1] == candidates[..n] + [study];
      var evaluation := EvaluateCompatibility(study, session, master);
      var report := None;
      if study.runtimeId in reports && reports[study.runtimeId].sourceStudy == study.runtimeId {
        report := Some(reports[study.runtimeId]);
      }
      summaries := summaries + [Summary(study, evaluation, report, false)];
    }
    assert candidates[..|candidates|] == candidates;
    var compatible, other := Filter(IsCompatibleSummary, summaries), Filter(IsOther, summaries);
    compatible := Sort(LatestLeq, Sort(AscendingLeq, compatible));
    other := Sort(LatestLeq, Sort(AscendingLeq, other));
    RankingPutsCompatibleFirst(summaries);
    final := MarkSelected(compatible + other);
  }

  // ----- the ranking -----

  lemma OrdersAreTotal()
    ensures TotalPreorder(AscendingLeq) && TotalPreorder(LatestLeq) && TotalPreorder(EvidenceLeq)
  {
  }

  lemma InPart(keep: Summary -> bool, summaries: seq<Summary>, s: Summary)
    ensures s in Part(keep, summaries) <==> s in summaries && keep(s)
  {
    InSort(LatestLeq, Sort(AscendingLeq, Filter(keep, summaries)), s);
    InSort(AscendingLeq, Filter(keep, summaries), s);
  }

  lemma AllInPart(keep: Summary -> bool, summaries: seq<Summary>)
    ensures var part := Part(keep, summaries); forall i :: 0 <= i < |part| ==> keep(part[i])
  {
    var part := Part(keep, summaries);
    forall i | 0 <= i < |part|
      ensures keep(part[i])
    {
      InPart(keep, summaries, part[i]);
    }
  }

  lemma RankingPutsCompatibleFirst(summaries: seq<Summary>)
    ensures CompatibleFirst(Ranking(summaries))
  {
    AllInPart(IsCompatibleSummary, summaries);
    AllInPart(IsOther, summaries);
    PartsInOrder(Part(IsCompatibleSummary, summaries), Part(IsOther, summaries));
  }

  lemma PartsInOrder(compatible: seq<Summary>, other: seq<Summary>)
    requires forall i :: 0 <= i < |compatible| ==> IsCompatibleSummary(compatible[i])
    requires forall i :: 0 <= i < |other| ==> IsOther(other[i])
    ensures CompatibleFirst(compatible + other)
  {
    var ranked := compatible + other;
    forall i, j | 0 <= i < j < |ranked| && IsCompatibleSummary(ranked[j])
      ensures IsCompatibleSummary(ranked[i])
    {
      assert j >= |compatible| ==> IsOther(other[j - |compatible|]);
      assert ranked[i] == compatible[i];
    }
  }

  /** The two stable sorts are one sort by later coverage, then lower identity. */
  lemma PartIsSorted(keep: Summary -> bool, summaries: seq<Summary>)
    ensures Part(keep, summaries) == Sort(EvidenceLeq, Filter(keep, summaries))
    ensures IsSorted(EvidenceLeq, Part(keep, summaries))
  {
    OrdersAreTotal();
    SortTwice(LatestLeq, AscendingLeq, Filter(keep, summaries));
    SortAgree(Lexicographic(LatestLeq, AscendingLeq), EvidenceLeq, Filter(keep, summaries));
    SortSorted(EvidenceLeq, Filter(keep, summaries));
  }

  lemma {:induction false} SortAgree<T(!new)>(p: (T, T) -> bool, q: (T, T) -> bool, s: seq<T>)
    requires forall x, y :: p(x, y) == q(x, y)
    ensures Sort(p, s) == Sort(q, s)
  {
    if s == [] {
    } else {
      SortAgree(p, q, s[..|s| - 1]);
      InsertAgree(p, q, s[|s| - 1], Sort(q, s[..|s| - 1]));
    }
  }

  lemma {:induction false} InsertAgree<T(!new)>(p: (T, T) -> bool, q: (T, T) -> bool, x: T, s: seq<T>)
    requires forall x, y :: p(x, y) == q(x, y)
    ensures Insert(p, x, s) == Insert(q, x, s)
  {
    if s == [] {
    } else {
      InsertAgree(p, q, x, s[..|s| - 1]);
    }
  }

  /** No selected flag: what a summary says before the last step. */
  function Unselect(s: Summary): Summary {
    s.(selected := false)
  }

  lemma {:induction false} PartsMakeWhole(s: seq<Summary>)
    ensures multiset(Filter(IsCompatibleSummary, s)) + multiset(Filter(IsOther, s)) == multiset(s)
  {
    if s == [] {
    } else {
      PartsMakeWhole(s[..|s| - 1]);
      assert s == s[..|s| - 1] + [s[|s| - 1]];
    }
  }

  lemma RankingRearranges(summaries: seq<Summary>)
    ensures multiset(Ranking(summaries)) == multiset(summaries)
  {
    PartsMakeWhole(summaries);
  }

  lemma RankingMembers(summaries: seq<Summary>)
    ensures forall s :: s in Ranking(summaries) <==> s in summaries
  {
    RankingRearranges(summaries);
    SameMembers(Ranking(summaries), summaries);
  }

  lemma SelectionOnlyMarks(ranked: seq<Summary>)
    requires forall s :: s in ranked ==> !s.selected
    ensures Map(Unselect, WithSelection(ranked)) == ranked
  {
    forall i | 0 <= i < |ranked|
      ensures Unselect(WithSelection(ranked)[i]) == ranked[i]
    {
      assert ranked[i] in ranked;
    }
  }

  /** One summary per candidate, and only the selected flag was changed: without it the result is a rearrangement of
      the candidates' own summaries. */
  lemma OneSummaryPerCandidate(session: Session, reports: Reports, master: Master, candidates: seq<Study>)
    ensures multiset(Map(Unselect, Found(session, reports, master, candidates)))
         == multiset(Summaries(session, reports, master, candidates))
    ensures |Found(session, reports, master, candidates)| == |candidates|
  {
    var summaries := Summaries(session, reports, master, candidates);
    RankingMembers(summaries);
    forall s | s in Ranking(summaries)
      ensures !s.selected
    {
      assert s in summaries;
    }
    SelectionOnlyMarks(Ranking(summaries));
    RankingRearranges(summaries);
    SameMembers(Ranking(summaries), summaries);
  }

  predicate SamePart(a: Summary, b: Summary) {
    IsCompatibleSummary(a) == IsCompatibleSummary(b)
  }

  /** Compatible first; each part by later coverage, then lower identity. */
  ghost predicate Ranked(s: seq<Summary>) {
    CompatibleFirst(s) && forall i, j :: 0 <= i < j < |s| && SamePart(s[i], s[j]) ==> EvidenceLeq(s[i], s[j])
  }

  lemma PartsRanked(compatible: seq<Summary>, other: seq<Summary>)
    requires forall i :: 0 <= i < |compatible| ==> IsCompatibleSummary(compatible[i])
    requires forall i :: 0 <= i < |other| ==> IsOther(other[i])
    requires IsSorted(EvidenceLeq, compatible) && IsSorted(EvidenceLeq, other)
    ensures Ranked(compatible + other)
  {
    PartsInOrder(compatible, other);
    var ranked := compatible + other;
    forall i, j | 0 <= i < j < |ranked| && SamePart(ranked[i], ranked[j])
      ensures EvidenceLeq(ranked[i], ranked[j])
    {
      if j < |compatible| {
        assert ranked[i] == compatible[i] && ranked[j] == compatible[j];
      } else {
        assert IsOther(other[j - |compatible|]);
        assert ranked[i] == other[i - |compatible|] && ranked[j] == other[j - |compatible|];
      }
    }
  }

  lemma RankingIsRanked(summaries: seq<Summary>)
    ensures Ranked(Ranking(summaries))
  {
    AllInPart(IsCompatibleSummary, summaries);
    AllInPart(IsOther, summaries);
    PartIsSorted(IsCompatibleSummary, summaries);
    PartIsSorted(IsOther, summaries);
    PartsRanked(Part(IsCompatibleSummary, summaries), Part(IsOther, summaries));
  }

  lemma SelectionIsRanked(ranked: seq<Summary>)
    requires Ranked(ranked) && forall s :: s in ranked ==> !s.selected
    ensures var found := WithSelection(ranked);
            && Ranked(found)
            && forall i :: 0 <= i < |found| ==> (found[i].selected <==> i == 0 && IsCompatibleSummary(found[0]))
  {
    var found := WithSelection(ranked);
    forall i | 0 <= i < |ranked|
      ensures !ranked[i].selected
    {
      assert ranked[i] in ranked;
    }
    assert forall i :: 0 <= i < |found| ==>
        found[i].study == ranked[i].study && found[i].evaluation == ranked[i].evaluation;
  }

  /** The ranking of the result, and which summary is selected: the first one, exactly when it is compatible. */
  lemma FoundIsRanked(session: Session, reports: Reports, master: Master, candidates: seq<Study>)
    ensures var found := Found(session, reports, master, candidates);
            && Ranked(found)
            && forall i :: 0 <= i < |found| ==> (found[i].selected <==> i == 0 && IsCompatibleSummary(found[0]))
  {
    var summaries := Summaries(session, reports, master, candidates);
    RankingIsRanked(summaries);
    RankingMembers(summaries);
    SelectionIsRanked(Ranking(summaries));
  }

  /** Something is selected exactly when some candidate is compatible, and then it is the compatible candidate with
      the latest coverage, the lower identity deciding ties. */
  lemma SelectedIsBest(session: Session, reports: Reports, master: Master, candidates: seq<Study>)
    ensures var found := Found(session, reports, master, candidates);
            && ((exists s :: s in found && s.selected)
                <==> exists c :: c in candidates && Evaluated(c, session, master).status == Compatible)
            && forall s, c :: s in found && s.selected && c in candidates
                              && Evaluated(c, session, master).status == Compatible ==>
                 EvidenceLeq(s, SummaryOf(session, reports, master)(c))
  {
    var found := Found(session, reports, master, candidates);
    FoundIsRanked(session, reports, master, candidates);
    forall c | c in candidates && Evaluated(c, session, master).status == Compatible
      ensures found != [] && found[0].selected && EvidenceLeq(found[0], SummaryOf(session, reports, master)(c))
    {
      FirstBeats(session, reports, master, candidates, c);
    }
    if s :| s in found && s.selected {
      FoundComeFrom(session, reports, master, candidates);
      assert IsCompatibleSummary(s);
    }
  }

  lemma FirstBeats(session: Session, reports: Reports, master: Master, candidates: seq<Study>, c: Study)
    requires c in candidates && Evaluated(c, session, master).status == Compatible
    ensures var found := Found(session, reports, master, candidates);
            found != [] && found[0].selected && EvidenceLeq(found[0], SummaryOf(session, reports, master)(c))
  {
    var found := Found(session, reports, master, candidates);
    FoundIsRanked(session, reports, master, candidates);
    var i := PlaceOf(session, reports, master, candidates, c);
    assert IsCompatibleSummary(found[i]);
    assert i == 0 || SamePart(found[0], found[i]);
  }

  /** Every candidate's summary is found somewhere, but for the selected flag. */
  lemma PlaceOf(session: Session, reports: Reports, master: Master, candidates: seq<Study>, c: Study) returns (i: nat)
    requires c in candidates
    ensures var found := Found(session, reports, master, candidates);
            i < |found| && Unselect(found[i]) == SummaryOf(session, reports, master)(c)
  {
    var summaries := Summaries(session, reports, master, candidates);
    var found := Found(session, reports, master, candidates);
    var k :| 0 <= k < |candidates| && candidates[k] == c;
    assert summaries[k] in summaries;
    RankingMembers(summaries);
    var ranked := Ranking(summaries);
    i :| 0 <= i < |ranked| && ranked[i] == summaries[k];
  }

  /** Every summary found is a candidate's own, so no report of another study is attached. */
  lemma FoundComeFrom(session: Session, reports: Reports, master: Master, candidates: seq<Study>)
    ensures forall s :: s in Found(session, reports, master, candidates) ==>
              && s.study in candidates && s.evaluation == Evaluated(s.study, session, master)
              && s.report == ReportFor(reports, s.study)
              && (s.report.Some? ==> s.report.value.sourceStudy == s.study.runtimeId)
  {
    var summaries := Summaries(session, reports, master, candidates);
    RankingMembers(summaries);
    forall s | s in WithSelection(Ranking(summaries))
      ensures OwnSummary(session, reports, master, candidates, s)
    {
      var r := BeforeSelection(Ranking(summaries), s);
      SummariesAreOwn(session, reports, master, candidates, r);
    }
  }

  ghost predicate OwnSummary(session: Session, reports: Reports, master: Master, candidates: seq<Study>, s: Summary) {
    s.study in candidates && s.evaluation == Evaluated(s.study, session, master)
    && s.report == ReportFor(reports, s.study)
  }

  lemma SummariesAreOwn(session: Session, reports: Reports, master: Master, candidates: seq<Study>, s: Summary)
    requires s in Summaries(session, reports, master, candidates)
    ensures OwnSummary(session, reports, master, candidates, s)
  {
    var summaries := Summaries(session, reports, master, candidates);
    var k :| 0 <= k < |summaries| && summaries[k] == s;
    assert s == SummaryOf(session, reports, master)(candidates[k]);
  }

  lemma BeforeSelection(ranked: seq<Summary>, s: Summary) returns (r: Summary)
    requires s in WithSelection(ranked)
    ensures r in ranked && r.study == s.study && r.evaluation == s.evaluation && r.report == s.report
  {
    var found := WithSelection(ranked);
    var i :| 0 <= i < |found| && found[i] == s;
    r := ranked[i];
  }

  lemma PartIgnoresOrder(keep: Summary -> bool, a: seq<Summary>, b: seq<Summary>)
    requires multiset(a) == multiset(b)
    requires forall x, y :: x in a && y in a && x.study.runtimeId == y.study.runtimeId ==> x == y
    ensures Part(keep, a) == Part(keep, b)
  {
    PartIsSorted(keep, a);
    PartIsSorted(keep, b);
    FilterMultiset(keep, a, b);
    OrdersAreTotal();
    SortPermutation(EvidenceLeq, Filter(keep, a), Filter(keep, b));
  }

  /** The order of the candidates does not matter when an identity tells the study. */
  lemma SearchIgnoresOrder(session: Session, reports: Reports, master: Master, a: seq<Study>, b: seq<Study>)
    requires multiset(a) == multiset(b)
    requires forall x, y :: x in a && y in a && x.runtimeId == y.runtimeId ==> x == y
    ensures Found(session, reports, master, a) == Found(session, reports, master, b)
  {
    var sa, sb := Summaries(session, reports, master, a), Summaries(session, reports, master, b);
    MapMultiset(SummaryOf(session, reports, master), a, b);
    forall x, y | x in sa && y in sa && x.study.runtimeId == y.study.runtimeId
      ensures x == y
    {
      var i :| 0 <= i < |sa| && sa[i] == x;
      var j :| 0 <= j < |sa| && sa[j] == y;
      assert a[i] in a && a[j] in a;
    }
    PartIgnoresOrder(IsCompatibleSummary, sa, sb);
    PartIgnoresOrder(IsOther, sa, sb);
  }

  /** In what is found, a compatible study stands before any other; among compatible ones, and among the others, the
      later coverage comes first, and of equal coverage the lower identity. */
  lemma FoundInOrder(session: Session, reports: Reports, master: Master, candidates: seq<Study>, i: nat, j: nat)
    requires i < j < |Found(session, reports, master, candidates)|
    ensures var found := Found(session, reports, master, candidates);
            var a, b := found[i].evaluation, found[j].evaluation;
            && (b.status == Compatible ==> a.status == Compatible)
            && ((a.status == Compatible) == (b.status == Compatible) ==>
                  && a.coverageEnd >= b.coverageEnd
                  && (a.coverageEnd == b.coverageEnd ==> found[i].study.runtimeId <= found[j].study.runtimeId))
  {
    FoundIsRanked(session, reports, master, candidates);
    var found := Found(session, reports, master, candidates);
    RankedPair(found, i, j);
  }

  lemma RankedPair(found: seq<Summary>, i: nat, j: nat)
    requires Ranked(found) && i < j < |found|
    ensures IsCompatibleSummary(found[j]) ==> IsCompatibleSummary(found[i])
    ensures SamePart(found[i], found[j]) ==> EvidenceLeq(found[i], found[j])
  {
  }

  /** A summary carries the report filed under its study exactly when that report was derived from this study. */
  lemma ReportAttached(session: Session, reports: Reports, master: Master, candidates: seq<Study>, s: Summary)
    requires s in Found(session, reports, master, candidates)
    ensures var id := s.study.runtimeId;
            if id in reports && reports[id].sourceStudy == id then s.report == Some(reports[id]) else s.report == None
  {
    FoundComeFrom(session, reports, master, candidates);
  }
}
