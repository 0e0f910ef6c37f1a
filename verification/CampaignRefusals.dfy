/** Which category a refused reconstruction is given. */
module CampaignRefusals {
  import opened Wrappers
  import opened CampaignAggregate
  import opened CampaignReconstruction

  /** The first record that does not continue the path. */
  ghost predicate FirstFault(c: Campaign, i: nat) {
    && i < |c.history| && !PathRecord(c.history, i, c.identity)
    && forall j :: 0 <= j < i ==> PathRecord(c.history, j, c.identity)
  }

  lemma PrefixPath(history: seq<Transition>, n: nat, i: nat, identity: Identity)
    requires i < n <= |history|
    ensures PathRecord(history[..n], i, identity) <==> PathRecord(history, i, identity)
  {
    assert StateBefore(history[..n], i) == StateBefore(history, i);
  }

  lemma ChecksNext(history: seq<Transition>, i: nat, identity: Identity, p: Progress)
    requires i < |history| && CheckRecords(history[..i], identity) == Success(p)
    ensures CheckRecords(history[..i + 1], identity) == CheckRecord(p, history[i], i + 1, identity)
  {
    assert history[..i + 1][..i] == history[..i];
  }

  lemma ChecksUpToFault(c: Campaign, i: nat) returns (p: Progress)
    requires FirstFault(c, i)
    ensures CheckRecords(c.history[..i], c.identity) == Success(p)
    ensures CheckRecord(p, c.history[i], i + 1, c.identity).Failure?
  {
    forall j | 0 <= j < i
      ensures PathRecord(c.history[..i], j, c.identity)
    {
      PrefixPath(c.history, i, j, c.identity);
    }
    ChecksAccept(c.history[..i], c.identity);
    p := CheckRecords(c.history[..i], c.identity).value;
    CheckRecordAccepts(c.history[..i], c.history[i], p, c.identity);
    assert c.history[..i] + [c.history[i]] == c.history[..i + 1];
    PrefixPath(c.history, i + 1, i, c.identity);
  }

  /** The first fault decides: a record of this campaign with the wrong number is a sequence fault, any other fault of
      a record is one of the history. */
  lemma FaultNamed(c: Campaign, i: nat)
    requires FirstFault(c, i)
    ensures var r := c.history[i];
            var own := r.identity == None || r.identity == Some(c.identity);
            Restored(c) == Failure(if own && r.sequence != i + 1 then InvalidTransitionSequence
                                   else InvalidTransitionHistory)
  {
    var p := ChecksUpToFault(c, i);
    ChecksNext(c.history, i, c.identity, p);
    ChecksFailEarly(c.history, c.identity, i + 1);
  }

  ghost predicate OnPath(c: Campaign) {
    forall i :: 0 <= i < |c.history| ==> PathRecord(c.history, i, c.identity)
  }

  predicate EndsInState(c: Campaign) {
    StateBefore(c.history, |c.history|) == Some(c.state)
  }

  predicate VersionsCovered(c: Campaign) {
    forall i :: 0 <= i < |c.history| ==> c.history[i].version <= c.version
  }

  predicate EveryReasonGiven(c: Campaign) {
    forall i :: 0 <= i < |c.history| && RequiresReason(c.history[i]) ==> c.history[i].reason.Some?
  }

  /** Where every record continues the path, the checks behind it decide, in this order: the state, the next number,
      the version, the reasons. */
  lemma RestOfChecksNamed(c: Campaign)
    requires OnPath(c)
    ensures var r := Restored(c);
            && (!EndsInState(c) ==>
                  r == Failure(if c.history == [] then InvalidTransitionHistory else InconsistentCurrentState))
            && (EndsInState(c) && c.nextSequence != |c.history| + 1 ==> r == Failure(InvalidTransitionSequence))
            && (EndsInState(c) && c.nextSequence == |c.history| + 1 ==>
                  r == if !VersionsCovered(c) then Failure(InvalidAggregateVersion)
                       else if !EveryReasonGiven(c) then Failure(InconsistentTerminalMetadata)
                       else Success(c))
  {
    if c.history != [] {
      ChecksAccept(c.history, c.identity);
      EndIsLastRecord(c);
      if EndsInState(c) {
        VersionsDecide(c, CheckRecords(c.history, c.identity).value.highest);
        ReasonsDecide(c);
      }
    }
  }

  lemma EndIsLastRecord(c: Campaign)
    requires c.history != []
    ensures EndsInState(c) <==> c.history[|c.history| - 1].toState == StateText(c.state)
  {
    ParseInverse(c.history[|c.history| - 1].toState, c.state);
  }

  lemma VersionsDecide(c: Campaign, highest: nat)
    requires HighestIs(c.history, highest)
    ensures VersionsCovered(c) <==> highest <= c.version
  {
  }

  lemma ReasonsDecide(c: Campaign)
    requires c.history != [] && EndsInState(c)
    ensures EveryReasonGiven(c) <==> ReasonsGiven(c)
  {
    EndIsLastRecord(c);
    if EveryReasonGiven(c) && c.state == Cancelled {
      FinalReasonImplied(c);
    }
  }
}
