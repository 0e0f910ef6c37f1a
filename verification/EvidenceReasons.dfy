/** Which reasons a study that is not compatible is given. */
module EvidenceReasons {
  import opened Wrappers
  import opened Sorting
  import opened HistoricalEvidence

  ghost predicate Disagree(study: Study, session: Session, f: Field) {
    session.policies(f).Some? && session.policies(f).value != study.policies(f)
  }

  /** The place of a field in the order of the checks. */
  function FieldRank(f: Field): nat {
    match f
    case StrategyId => 0
    case StrategyVersion => 1
    case RankingModelId => 2
    case RankingModelVersion => 3
    case RiskPolicyId => 4
    case RiskPolicyVersion => 5
    case SizingPolicyId => 6
    case SizingPolicyVersion => 7
  }

  predicate RankedBefore(f: Field, g: Field) {
    FieldRank(f) < FieldRank(g)
  }

  lemma FieldsInOrder()
    ensures IsSorted(RankedBefore, FIELDS)
  {
    forall i, j | 0 <= i < j < |FIELDS|
      ensures RankedBefore(FIELDS[i], FIELDS[j])
    {
      FieldPlace(i);
      FieldPlace(j);
    }
  }

  lemma FieldPlace(i: nat)
    requires i < |FIELDS|
    ensures FieldRank(FIELDS[i]) == i
  {
  }

  /** Every field that disagrees is named, once, in the order of the checks, and nothing else is. */
  lemma MismatchesNamed(study: Study, session: Session)
    ensures var r := Mismatches(session, study);
            && (forall f: Field :: Mismatch(f) in r <==> Disagree(study, session, f))
            && (forall x :: x in r ==> x.Mismatch?)
            && forall i, j :: 0 <= i < j < |r| ==> FieldRank(r[i].field) < FieldRank(r[j].field)
  {
    var kept, r := Filter(Differs(session, study), FIELDS), Mismatches(session, study);
    FieldsInOrder();
    FilterKeepsOrder(RankedBefore, Differs(session, study), FIELDS);
    assert forall i :: 0 <= i < |r| ==> r[i] == Mismatch(kept[i]);
    forall f: Field | true
      ensures Mismatch(f) in r <==> Disagree(study, session, f)
    {
      EveryFieldListed(f);
      if Disagree(study, session, f) {
        assert Differs(session, study)(f) && f in kept;
        var i :| 0 <= i < |kept| && kept[i] == f;
        assert r[i] == Mismatch(f);
      }
      if Mismatch(f) in r {
        var i :| 0 <= i < |r| && r[i] == Mismatch(f);
        assert kept[i] in kept && kept[i] == f;
      }
    }
    forall i, j | 0 <= i < j < |r|
      ensures FieldRank(r[i].field) < FieldRank(r[j].field)
    {
      assert RankedBefore(kept[i], kept[j]);
    }
  }

  ghost predicate SomeDisagree(study: Study, session: Session) {
    exists f: Field :: Disagree(study, session, f)
  }

  /** A policy that disagrees gives those reasons and no others; without one the checks give one reason each, in their
      order, and coverage is derived only behind them. */
  lemma HardReasons(study: Study, session: Session, master: Master)
    ensures var r := Evaluated(study, session, master);
            && (SomeDisagree(study, session) ==>
                  r.status == Incompatible && r.reasons == Mismatches(session, study) && r.reasons != [])
            && (!SomeDisagree(study, session) && !Qualified(study, session) ==>
                  && r.status == Incompatible
                  && r.reasons == [if study.windowCount < 2 then TooFewWindows
                                   else if study.classification == InsufficientSample then WeakClassification
                                   else NoWindowResults])
            && (!Qualified(study, session) ==> r.coverageEnd == 0 && r.matched == [])
  {
    NoMismatch(study, session);
    if SomeDisagree(study, session) {
      var f: Field :| Disagree(study, session, f);
      assert !(session.policies(f).Some? ==> session.policies(f).value == study.policies(f));
    } else {
      forall f: Field | true
        ensures session.policies(f).Some? ==> session.policies(f).value == study.policies(f)
      {
        assert !Disagree(study, session, f);
      }
    }
  }

  /** The latest end of coverage lies behind the session, or more than ninety days before it, or neither. */
  lemma CalendarReasons(study: Study, session: Session, master: Master)
    requires Qualified(study, session)
    ensures var r := Evaluated(study, session, master);
            && r.coverageEnd == CoverageEnd(study.windows)
            && (r.reasons == [AfterTheSession] <==> r.status == FutureEvidence)
            && (r.reasons == [TooOld] <==> r.status == Stale)
            && (r.status == FutureEvidence <==> exists w :: w in study.windows && w.dataEnd > session.asOf)
            && (r.status == Stale <==>
                  forall w :: w in study.windows ==> session.asOf - w.dataEnd > 90 * 24 * 3600 * 1000000)
  {
    NoMismatch(study, session);
    UniverseReasonIs(study, session, master, CoverageEnd(study.windows));
  }

  lemma UniverseReasonIs(study: Study, session: Session, master: Master, end: nat)
    ensures var r := EvaluateUniverse(study, session, master, end);
            && r.coverageEnd == end && r.reasons != [AfterTheSession] && r.reasons != [TooOld]
            && (r.status == Compatible || r.status == Incompatible)
  {
  }

  /** The requested symbols no window evaluated. */
  ghost function NeverEvaluatedOf(study: Study, session: Session, master: Master): set<Symbol> {
    set x | x in session.requested && !EvaluatedIn(study.windows, master, x)
  }

  /** Behind the calendar: an empty request, symbols no window evaluated, or no window in which all were eligible. */
  lemma UniverseReasons(study: Study, session: Session, master: Master)
    requires Qualified(study, session) && CoverageEnd(study.windows) <= session.asOf
    requires !TooLongAgo(CoverageEnd(study.windows), session.asOf)
    ensures var r, missing := Evaluated(study, session, master), NeverEvaluatedOf(study, session, master);
            && (session.requested == [] ==> r.reasons == [NothingRequested])
            && (session.requested != [] && missing != {} ==> r.reasons == [NeverEvaluated(missing)])
            && (session.requested != [] && missing == {} ==>
                  r.reasons == if exists k: nat :: EligibleIn(study, session, master, k) then []
                               else [NoEligibleWindow])
  {
    NoMismatch(study, session);
    MissingIs(study, session, master);
    FirstMatchIsFirst(study.windows, session.requested, master);
    forall k: nat
      ensures CoversIn(study.windows, session.requested, master, k) <==> EligibleIn(study, session, master, k)
    {
      CoversIsEligible(study, session, master, k);
    }
  }

  lemma MissingIs(study: Study, session: Session, master: Master)
    ensures SetOf(session.requested) - AllEvaluated(study.windows, master)
         == NeverEvaluatedOf(study, session, master)
  {
    forall x | x in session.requested
      ensures x in AllEvaluated(study.windows, master) <==> EvaluatedIn(study.windows, master, x)
    {
      EvaluatedExactly(study.windows, master, x);
    }
  }
}
