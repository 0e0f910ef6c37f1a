/** Saving a Campaign as a durable record and restoring it: the mapper both ways, and the validation that
    reconstruction performs on whatever it is given. */
module CampaignReconstruction {
  import opened Wrappers
  import opened BlankText
  import opened CampaignAggregate

  datatype Category =
    | InvalidAggregateVersion
    | InvalidTransitionSequence
    | InvalidTransitionHistory
    | InconsistentCurrentState
    | InconsistentTerminalMetadata

  // ----- validation of a restored state -----

  /** `(from_state or "", to_state) in allowed_edges`. */
  predicate AllowedEdge(r: Transition) {
    r.fromState.Some? && ParseState(r.fromState.value).Some? && ParseState(r.toState).Some?
    && Edge(ParseState(r.fromState.value).value, ParseState(r.toState).value)
  }

  predicate RequiresReason(r: Transition) {
    AllowedEdge(r) && EdgeNeedsReason(ParseState(r.fromState.value).value, ParseState(r.toState).value)
  }

  predicate TerminalText(s: string) {
    ParseState(s).Some? && Terminal(ParseState(s).value)
  }

  /** The loop's state: where the path has got to, and the highest version seen. */
  datatype Progress = Progress(previous: Option<string>, highest: nat)

  function CheckRecord(p: Progress, r: Transition, index: nat, identity: Identity): Result<Progress, Category> {
    if r.identity.Some? && r.identity.value != identity then Failure(InvalidTransitionHistory)
    else if r.sequence != index then Failure(InvalidTransitionSequence)
    else if index == 1 && r.fromState != Some(StateText(Draft)) then Failure(InvalidTransitionHistory)
    else if p.previous.Some? && TerminalText(p.previous.value) then Failure(InvalidTransitionHistory)
    else if p.previous.Some? && r.fromState != p.previous then Failure(InvalidTransitionHistory)
    else if !AllowedEdge(r) then Failure(InvalidTransitionHistory)
    else Success(Progress(Some(r.toState), if r.version > p.highest then r.version else p.highest))
  }

  function CheckRecords(history: seq<Transition>, identity: Identity): Result<Progress, Category> {
    if history == [] then Success(Progress(None, 0))
    else
      var p :- CheckRecords(history[..|history| - 1], identity);
      CheckRecord(p, history[|history| - 1], |history|, identity)
  }

  /** The highest version the history requires, or why it is refused. */
  function HistoryCheck(c: Campaign): Result<nat, Category> {
    if c.history == [] then
      if c.state != Draft then Failure(InvalidTransitionHistory)
      else if c.nextSequence != 1 then Failure(InvalidTransitionSequence)
      else Success(0)
    else
      var p :- CheckRecords(c.history, c.identity);
      if p.previous != Some(StateText(c.state)) then Failure(InconsistentCurrentState)
      else if c.nextSequence != |c.history| + 1 then Failure(InvalidTransitionSequence)
      else Success(p.highest)
  }

  predicate ReasonsGiven(c: Campaign) {
    && (forall i :: 0 <= i < |c.history| && RequiresReason(c.history[i]) ==> c.history[i].reason.Some?)
    && (c.history != [] && c.state == Cancelled ==>
          var final := c.history[|c.history| - 1];
          final.fromState in {Some(StateText(Authorized)), Some(StateText(Active)), Some(StateText(Suspended))}
          ==> final.reason.Some?)
  }

  /** Restore a campaign from a state, or refuse it: the specification of `Reconstruct`. */
  function Restored(c: Campaign): Result<Campaign, Category> {
    var highest :- HistoryCheck(c);
    if c.version < highest then Failure(InvalidAggregateVersion)
    else if !ReasonsGiven(c) then Failure(InconsistentTerminalMetadata)
    else Success(c)
  }

  lemma {:induction false} ChecksFailEarly(history: seq<Transition>, identity: Identity, n: nat)
    requires n <= |history| && CheckRecords(history[..n], identity).Failure?
    ensures CheckRecords(history, identity) == CheckRecords(history[..n], identity)
    decreases |history| - n
  {
    if n == |history| {
      assert history[..n] == history;
    } else {
      assert history[..n + 1][..n] == history[..n];
      ChecksFailEarly(history, identity, n + 1);
    }
  }

  method ValidateTransitionHistory(c: Campaign) returns (r: Result<nat, Category>)
    ensures r == HistoryCheck(c)
  {
    if c.history == [] {
      return HistoryCheck(c);
    }
    var p := Progress(None, 0);
    var i := 0;
    while i < |c.history|
      invariant 0 <= i <= |c.history| && CheckRecords(c.history[..i], c.identity) == Success(p)
    {
      assert c.history[..i + 1][..i] == c.history[..i];
      assert CheckRecords(c.history[..i + 1], c.identity) == CheckRecord(p, c.history[i], i + 1, c.identity);
      match CheckRecord(p, c.history[i], i + 1, c.identity) {
        case Failure(category) =>
          ChecksFailEarly(c.history, c.identity, i + 1);
          return Failure(category);
        case Success(next) =>
          p := next;
      }
      i := i + 1;
    }
    assert c.history[..i] == c.history;
    if p.previous != Some(StateText(c.state)) {
      return Failure(InconsistentCurrentState);
    }
    if c.nextSequence != |c.history| + 1 {
      return Failure(InvalidTransitionSequence);
    }
    return Success(p.highest);
  }

  method ValidateTerminalReason(c: Campaign) returns (given: bool)
    ensures given == ReasonsGiven(c)
  {
    var i := 0;
    while i < |c.history|
      invariant 0 <= i <= |c.history|
      invariant forall j :: 0 <= j < i && RequiresReason(c.history[j]) ==> c.history[j].reason.Some?
    {
      if RequiresReason(c.history[i]) && c.history[i].reason == None {
        return false;
      }
      i := i + 1;
    }
    if c.history == [] || c.state != Cancelled {
      return true;
    }
    var final := c.history[|c.history| - 1];
    return final.fromState in {Some(StateText(Authorized)), Some(StateText(Active)), Some(StateText(Suspended))}
           ==> final.reason.Some?;
  }

  method Reconstruct(c: Campaign) returns (r: Result<Campaign, Category>)
    ensures r == Restored(c)
  {
    var checked := ValidateTransitionHistory(c);
    match checked {
      case Failure(category) => return Failure(category);
      case Success(highest) =>
        if c.version < highest {
          return Failure(InvalidAggregateVersion);
        }
        var given := ValidateTerminalReason(c);
        return if given then Success(c) else Failure(InconsistentTerminalMetadata);
    }
  }

  // ----- exactly what reconstruction accepts -----

  /** Record `i` is numbered, belongs to the campaign if it says so, and continues the path along an allowed edge,
      with a reason where the edge needs one. Its version is only bounded by the campaign's. */
  ghost predicate RestorableRecord(c: Campaign, i: nat)
    requires i < |c.history|
  {
    && c.history[i].sequence == i + 1 && c.history[i].version <= c.version
    && (c.history[i].identity == None || c.history[i].identity == Some(c.identity))
    && HasStep(c.history, i)
  }

  ghost predicate Restorable(c: Campaign) {
    && c.nextSequence == |c.history| + 1
    && (forall i :: 0 <= i < |c.history| ==> RestorableRecord(c, i))
    && StateBefore(c.history, |c.history|) == Some(c.state)
  }

  /** The part of `Restorable` one record contributes to the path check. */
  ghost predicate PathRecord(history: seq<Transition>, i: nat, identity: Identity)
    requires i < |history|
  {
    && history[i].sequence == i + 1 && (history[i].identity == None || history[i].identity == Some(identity))
    && AllowedEdge(history[i])
    && StateBefore(history, i).Some? && history[i].fromState == Some(StateText(StateBefore(history, i).value))
  }

  ghost predicate HighestIs(history: seq<Transition>, highest: nat) {
    && (forall i :: 0 <= i < |history| ==> history[i].version <= highest)
    && (highest == 0 || exists i :: 0 <= i < |history| && history[i].version == highest)
  }

  lemma EdgesFromTerminal(s: string, r: Transition)
    requires TerminalText(s) && r.fromState == Some(s)
    ensures !AllowedEdge(r)
  {
  }

  /** One more record: the check accepts it exactly when it continues the path. */
  lemma CheckRecordAccepts(history: seq<Transition>, r: Transition, p: Progress, identity: Identity)
    requires history != [] ==> p.previous == Some(history[|history| - 1].toState)
                               && ParseState(history[|history| - 1].toState).Some?
    requires history == [] ==> p.previous == None
    ensures CheckRecord(p, r, |history| + 1, identity).Success? <==> PathRecord(history + [r], |history|, identity)
  {
    var longer := history + [r];
    if history == [] {
      assert StateBefore(longer, 0) == Some(Draft);
    } else {
      var previous := history[|history| - 1].toState;
      assert longer[|history| - 1] == history[|history| - 1];
      var s := ParseState(previous).value;
      ParseInverse(previous, s);
      assert StateBefore(longer, |history|) == Some(s);
      if TerminalText(previous) && r.fromState == Some(previous) {
        EdgesFromTerminal(previous, r);
      }
    }
  }

  lemma {:induction false} ChecksAccept(history: seq<Transition>, identity: Identity)
    ensures CheckRecords(history, identity).Success?
       <==> forall i :: 0 <= i < |history| ==> PathRecord(history, i, identity)
    ensures var r := CheckRecords(history, identity);
            r.Success? ==>
              && (history == [] ==> r.value.previous == None)
              && (history != [] ==> r.value.previous == Some(history[|history| - 1].toState)
                                    && ParseState(history[|history| - 1].toState).Some?)
              && HighestIs(history, r.value.highest)
  {
    if history == [] {
    } else {
      var front, last := history[..|history| - 1], history[|history| - 1];
      assert history == front + [last];
      ChecksAccept(front, identity);
      forall i | 0 <= i < |front|
        ensures PathRecord(history, i, identity) <==> PathRecord(front, i, identity)
      {
        assert StateBefore(history, i) == StateBefore(front, i);
      }
      if CheckRecords(front, identity).Success? {
        CheckRecordAccepts(front, last, CheckRecords(front, identity).value, identity);
      }
    }
  }

  lemma PathIsStep(history: seq<Transition>, i: nat, identity: Identity)
    requires i < |history| && PathRecord(history, i, identity)
    requires RequiresReason(history[i]) ==> history[i].reason.Some?
    ensures HasStep(history, i)
  {
    var from, to := StateBefore(history, i).value, ParseState(history[i].toState).value;
    ParseInverse(StateText(from), from);
    ParseInverse(history[i].toState, to);
    assert IsStep(history, i, from, to);
  }

  lemma StepIsPath(history: seq<Transition>, i: nat, from: State, to: State)
    requires i < |history| && IsStep(history, i, from, to)
    ensures AllowedEdge(history[i]) && StateBefore(history, i) == Some(from)
    ensures history[i].fromState == Some(StateText(from))
    ensures RequiresReason(history[i]) ==> history[i].reason.Some?
  {
    ParseInverse(StateText(from), from);
    ParseInverse(StateText(to), to);
  }

  /** The final-record clause adds nothing: those edges need a reason already. */
  lemma FinalReasonImplied(c: Campaign)
    requires c.history != [] && c.state == Cancelled && c.history[|c.history| - 1].toState == StateText(Cancelled)
    requires forall i :: 0 <= i < |c.history| && RequiresReason(c.history[i]) ==> c.history[i].reason.Some?
    ensures ReasonsGiven(c)
  {
    var final := c.history[|c.history| - 1];
    ParseInverse(final.toState, Cancelled);
    forall from | from in {Authorized, Active, Suspended} && final.fromState == Some(StateText(from))
      ensures final.reason.Some?
    {
      ParseInverse(StateText(from), from);
      assert RequiresReason(final);
    }
  }

  lemma RestoredImpliesRestorable(c: Campaign)
    requires Restored(c).Success?
    ensures Restorable(c)
  {
    if c.history != [] {
      ChecksAccept(c.history, c.identity);
      ParseInverse(StateText(c.state), c.state);
      forall i | 0 <= i < |c.history|
        ensures RestorableRecord(c, i)
      {
        assert PathRecord(c.history, i, c.identity);
        PathIsStep(c.history, i, c.identity);
      }
    }
  }

  lemma StepsArePath(c: Campaign)
    requires Restorable(c)
    ensures forall i :: 0 <= i < |c.history| ==> PathRecord(c.history, i, c.identity)
    ensures forall i :: 0 <= i < |c.history| && RequiresReason(c.history[i]) ==> c.history[i].reason.Some?
  {
    forall i | 0 <= i < |c.history|
      ensures PathRecord(c.history, i, c.identity)
      ensures RequiresReason(c.history[i]) ==> c.history[i].reason.Some?
    {
      assert RestorableRecord(c, i);
      var from, to :| IsStep(c.history, i, from, to);
      StepIsPath(c.history, i, from, to);
    }
  }

  lemma RestorableChecks(c: Campaign)
    requires Restorable(c) && c.history != []
    ensures HistoryCheck(c).Success? && HistoryCheck(c).value <= c.version
  {
    StepsArePath(c);
    ChecksAccept(c.history, c.identity);
    ParseInverse(c.history[|c.history| - 1].toState, c.state);
    var highest := CheckRecords(c.history, c.identity).value.highest;
    if highest > 0 {
      var i :| 0 <= i < |c.history| && c.history[i].version == highest;
      assert RestorableRecord(c, i);
    }
  }

  lemma RestorableIsRestored(c: Campaign)
    requires Restorable(c)
    ensures Restored(c) == Success(c)
  {
    if c.history != [] {
      RestorableChecks(c);
      StepsArePath(c);
      ParseInverse(c.history[|c.history| - 1].toState, c.state);
      if c.state == Cancelled {
        FinalReasonImplied(c);
      }
    }
  }

  /** Reconstruction accepts exactly the restorable states, and restores them unchanged. */
  lemma RestoresExactly(c: Campaign)
    ensures Restored(c).Success? <==> Restorable(c)
    ensures Restored(c).Success? ==> Restored(c).value == c
  {
    if Restored(c).Success? {
      RestoredImpliesRestorable(c);
    }
    if Restorable(c) {
      RestorableIsRestored(c);
    }
  }

  /** What reconstruction does not check of record `i`: that versions rise by one, that the record names the
      campaign, and the record constructor's own rules. */
  ghost predicate AsAppended(c: Campaign, i: nat)
    requires i < |c.history|
  {
    && ValidTransition(c.history[i]) && c.history[i].identity == Some(c.identity)
    && c.history[i].version == c.version - |c.history| + i + 1
  }

  /** With that added, the restorable campaigns are the reachable ones. */
  lemma ReachableIffRestorable(c: Campaign)
    ensures WellFormed(c)
       <==> Restorable(c) && c.version >= |c.history| && forall i :: 0 <= i < |c.history| ==> AsAppended(c, i)
  {
    if WellFormed(c) {
      forall i | 0 <= i < |c.history|
        ensures RestorableRecord(c, i) && AsAppended(c, i)
      {
        assert Continues(c, i);
      }
    }
    if Restorable(c) && c.version >= |c.history| && forall i :: 0 <= i < |c.history| ==> AsAppended(c, i) {
      forall i | 0 <= i < |c.history|
        ensures Continues(c, i)
      {
        assert RestorableRecord(c, i) && AsAppended(c, i);
      }
    }
  }

  /** Reconstruction does accept states no run produces: here the version skips. */
  lemma AcceptsUnreachable(identity: Identity, scope: Scope, actor: string)
    requires NotBlank(actor)
    ensures var r := Transition(Some(StateText(Draft)), StateText(Cancelled), 0, 1, actor, 0, Some(identity), None,
                                None);
            var c := Campaign(identity, scope, Cancelled, 7, 2, [r]);
            Restored(c) == Success(c) && !exists start: Scope, commands :: Run(New(identity, start), commands) == c
  {
    var r := Transition(Some(StateText(Draft)), StateText(Cancelled), 0, 1, actor, 0, Some(identity), None, None);
    var c := Campaign(identity, scope, Cancelled, 7, 2, [r]);
    ParseInverse(StateText(Cancelled), Cancelled);
    assert IsStep(c.history, 0, Draft, Cancelled);
    assert RestorableRecord(c, 0);
    RestorableIsRestored(c);
    assert !WellFormed(c) by {
      assert !Continues(c, 0);
    }
    ReachableExactly(c);
  }

  // ----- the mapper -----

  datatype DurableIdentity = DurableIdentity(governanceId: string, runtimeId: string)

  datatype DurableTransition = DurableTransition(
    fromState: Option<string>,
    toState: string,
    version: int,
    sequence: int,
    actor: string,
    occurredAt: int,
    identity: Option<DurableIdentity>,
    correlationId: Option<string>,
    reason: Option<string>)

  datatype DurableCampaign = DurableCampaign(
    identity: DurableIdentity,
    scope: string,
    state: string,
    version: int,
    nextSequence: int,
    history: seq<DurableTransition>)

  function SaveIdentity(identity: Identity): DurableIdentity {
    DurableIdentity(identity.governanceId, identity.runtimeId)
  }

  function LoadIdentity(d: DurableIdentity): Option<Identity> {
    if IsCampaignId(d.governanceId) && IsRuntimeId(d.runtimeId) then Some(Identity(d.governanceId, d.runtimeId))
    else None
  }

  function SaveTransition(r: Transition): DurableTransition {
    DurableTransition(r.fromState, r.toState, r.version, r.sequence, r.actor, r.occurredAt,
                      match r.identity case None => None case Some(i) => Some(SaveIdentity(i)),
                      r.correlationId, r.reason)
  }

  /** `None` where a constructor raises. */
  function LoadTransition(d: DurableTransition): Option<Transition> {
    if d.version < 0 || d.sequence < 1 || (d.identity.Some? && LoadIdentity(d.identity.value) == None) then None
    else
      var r := Transition(d.fromState, d.toState, d.version, d.sequence, d.actor, d.occurredAt,
                          if d.identity.Some? then LoadIdentity(d.identity.value) else None, d.correlationId, d.reason);
      if ValidTransition(r) then Some(r) else None
  }

  function SaveHistory(history: seq<Transition>): seq<DurableTransition> {
    if history == [] then [] else SaveHistory(history[..|history| - 1]) + [SaveTransition(history[|history| - 1])]
  }

  function LoadHistory(history: seq<DurableTransition>): Option<seq<Transition>> {
    if history == [] then Some([])
    else
      match (LoadHistory(history[..|history| - 1]), LoadTransition(history[|history| - 1]))
      case (Some(front), Some(last)) => Some(front + [last])
      case _ => None
  }

  function ToDurable(c: Campaign): DurableCampaign {
    DurableCampaign(SaveIdentity(c.identity), c.scope, StateText(c.state), c.version, c.nextSequence,
                    SaveHistory(c.history))
  }

  /** The reconstruction state of a durable record; `None` where the mapper or a constructor raises. */
  function FromDurable(d: DurableCampaign): Option<Campaign> {
    match (ParseState(d.state), LoadIdentity(d.identity), LoadHistory(d.history))
    case (Some(state), Some(identity), Some(history)) =>
      if NotBlank(d.scope) && d.version >= 0 && d.nextSequence >= 1
      then Some(Campaign(identity, d.scope, state, d.version, d.nextSequence, history))
      else None
    case _ => None
  }

  lemma TransitionRoundTrip(t: Transition)
    requires ValidTransition(t)
    ensures LoadTransition(SaveTransition(t)) == Some(t)
  {
  }

  lemma SaveNext(history: seq<Transition>, t: Transition)
    ensures SaveHistory(history + [t]) == SaveHistory(history) + [SaveTransition(t)]
  {
    assert (history + [t])[..|history|] == history;
  }

  lemma LoadNext(history: seq<DurableTransition>, d: DurableTransition)
    requires LoadHistory(history).Some? && LoadTransition(d).Some?
    ensures LoadHistory(history + [d]) == Some(LoadHistory(history).value + [LoadTransition(d).value])
  {
    assert (history + [d])[..|history|] == history;
  }

  lemma {:induction false} HistoryRoundTrip(history: seq<Transition>)
    requires forall i :: 0 <= i < |history| ==> ValidTransition(history[i])
    ensures LoadHistory(SaveHistory(history)) == Some(history)
  {
    if history == [] {
    } else {
      var front, last := history[..|history| - 1], history[|history| - 1];
      assert history == front + [last];
      HistoryRoundTrip(front);
      TransitionRoundTrip(last);
      SaveNext(front, last);
      LoadNext(SaveHistory(front), SaveTransition(last));
    }
  }

  /** Save any reachable campaign, load it, reconstruct it: accepted, and equal. */
  lemma SaveLoadRoundTrip(c: Campaign)
    requires WellFormed(c)
    ensures FromDurable(ToDurable(c)) == Some(c) && Restored(c) == Success(c)
  {
    forall i | 0 <= i < |c.history|
      ensures ValidTransition(c.history[i])
    {
      assert Continues(c, i);
    }
    HistoryRoundTrip(c.history);
    ParseInverse(StateText(c.state), c.state);
    ReachableIffRestorable(c);
    RestorableIsRestored(c);
  }

  lemma TransitionReloads(d: DurableTransition)
    requires LoadTransition(d).Some?
    ensures SaveTransition(LoadTransition(d).value) == d
  {
  }

  lemma SaveExtended(history: seq<Transition>, r: Transition)
    ensures SaveHistory(history + [r]) == SaveHistory(history) + [SaveTransition(r)]
  {
  }

  lemma {:induction false} HistoryReloads(history: seq<DurableTransition>)
    requires LoadHistory(history).Some?
    ensures SaveHistory(LoadHistory(history).value) == history
  {
    if history == [] {
    } else {
      var front, last := history[..|history| - 1], history[|history| - 1];
      assert LoadHistory(front).Some? && LoadTransition(last).Some?;
      assert SaveHistory(LoadHistory(front).value) == front by {
        HistoryReloads(front);
      }
      assert SaveTransition(LoadTransition(last).value) == last by {
        TransitionReloads(last);
      }
      SaveExtended(LoadHistory(front).value, LoadTransition(last).value);
      assert history == front + [last];
    }
  }

  /** Whatever loads, saves back to the same record: the mapper loses and invents nothing. */
  lemma LoadSaveRoundTrip(d: DurableCampaign)
    requires FromDurable(d).Some?
    ensures ToDurable(FromDurable(d).value) == d
  {
    HistoryReloads(d.history);
    ParseInverse(d.state, ParseState(d.state).value);
  }
}
