/** The Campaign aggregate: its lifecycle methods, and what every run of them keeps. */
module CampaignAggregate {
  import opened Wrappers
  import opened BlankText

  datatype State = Draft | ReadyForAuthorization | Authorized | Active | Suspended | Completed | Cancelled

  function StateText(s: State): string {
    match s
    case Draft => "DRAFT"
    case ReadyForAuthorization => "READY_FOR_AUTHORIZATION"
    case Authorized => "AUTHORIZED"
    case Active => "ACTIVE"
    case Suspended => "SUSPENDED"
    case Completed => "COMPLETED"
    case Cancelled => "CANCELLED"
  }

  function ParseState(text: string): Option<State> {
    if text == "DRAFT" then Some(Draft)
    else if text == "READY_FOR_AUTHORIZATION" then Some(ReadyForAuthorization)
    else if text == "AUTHORIZED" then Some(Authorized)
    else if text == "ACTIVE" then Some(Active)
    else if text == "SUSPENDED" then Some(Suspended)
    else if text == "COMPLETED" then Some(Completed)
    else if text == "CANCELLED" then Some(Cancelled)
    else None
  }

  lemma ParseInverse(text: string, s: State)
    ensures ParseState(text) == Some(s) <==> text == StateText(s)
  {
  }

  lemma StateTextNotBlank(s: State)
    ensures NotBlank(StateText(s))
  {
    assert StateText(s)[0] in {'D', 'R', 'A', 'S', 'C'};
    assert StateText(s)[0] !in BLANKS;
  }

  // ----- identities -----

  predicate IsCampaignId(s: string) {
    |s| == 9 && s[..5] == "CAMP-" && forall i :: 5 <= i < 9 ==> '0' <= s[i] <= '9'
  }

  predicate IsHex(c: char) {
    '0' <= c <= '9' || 'a' <= c <= 'f'
  }

  /** A canonical version-4 UUID. */
  predicate IsRuntimeId(s: string) {
    && |s| == 36
    && (forall i :: 0 <= i < 36 ==> if i in {8, 13, 18, 23} then s[i] == '-' else IsHex(s[i]))
    && s[14] == '4' && s[19] in {'8', '9', 'a', 'b'}
  }

  type CampaignId = s: string | IsCampaignId(s) witness "CAMP-0000"
  type RuntimeId = s: string | IsRuntimeId(s) witness "00000000-0000-4000-8000-000000000000"
  type Scope = s: string | NotBlank(s) witness (assert "scope"[0] !in BLANKS; "scope")

  datatype Identity = Identity(governanceId: CampaignId, runtimeId: RuntimeId)

  // ----- history -----

  datatype Transition = Transition(
    fromState: Option<string>,
    toState: string,
    version: nat,
    sequence: nat,
    actor: string,
    occurredAt: int,
    identity: Option<Identity>,
    correlationId: Option<string>,
    reason: Option<string>)

  predicate NotBlankIfGiven(text: Option<string>) {
    text.Some? ==> NotBlank(text.value)
  }

  /** What the record constructor and `TransitionSequence` admit. */
  predicate ValidTransition(r: Transition) {
    && NotBlankIfGiven(r.fromState) && NotBlank(r.toState) && NotBlank(r.actor)
    && NotBlankIfGiven(r.correlationId) && NotBlankIfGiven(r.reason) && r.sequence >= 1
  }

  datatype Campaign = Campaign(
    identity: Identity,
    scope: Scope,
    state: State,
    version: nat,
    nextSequence: nat,
    history: seq<Transition>)

  function New(identity: Identity, scope: Scope): Campaign {
    Campaign(identity, scope, Draft, 0, 1, [])
  }

  // ----- the lifecycle -----

  /** The lifecycle methods. */
  datatype Move = PrepareForAuthorization | RecordAuthorization | Activate | Suspend | Resume | Complete | Cancel

  datatype Refusal = WrongState | BlankValue | MissingReason

  predicate MayMove(move: Move, from: State) {
    match move
    case PrepareForAuthorization => from == Draft
    case RecordAuthorization => from == ReadyForAuthorization
    case Activate => from == Authorized
    case Suspend => from == Active
    case Resume => from == Suspended
    case Complete => from == Active
    case Cancel => from != Completed && from != Cancelled
  }

  function Target(move: Move): State {
    match move
    case PrepareForAuthorization => ReadyForAuthorization
    case RecordAuthorization => Authorized
    case Activate => Active
    case Suspend => Suspended
    case Resume => Active
    case Complete => Completed
    case Cancel => Cancelled
  }

  /** Whether the method insists on a reason in this state. */
  predicate InsistsOnReason(move: Move, from: State) {
    match move
    case PrepareForAuthorization => false
    case Cancel => from in {Authorized, Active, Suspended}
    case _ => true
  }

  datatype Details = Details(actor: string, occurredAt: int, correlationId: Option<string>, reason: Option<string>)

  /** The check a method makes before the common transition. */
  function ReasonRefusal(move: Move, from: State, reason: Option<string>): Option<Refusal> {
    if InsistsOnReason(move, from) && reason == None then Some(MissingReason)
    else if (InsistsOnReason(move, from) || move == Cancel) && !NotBlankIfGiven(reason) then Some(BlankValue)
    else None
  }

  function TransitionRefusal(move: Move, from: State, details: Details): Option<Refusal> {
    if !MayMove(move, from) then Some(WrongState)
    else if !NotBlank(details.actor) || !NotBlankIfGiven(details.correlationId) || !NotBlankIfGiven(details.reason)
    then Some(BlankValue)
    else None
  }

  function Record(c: Campaign, to: State, details: Details): Transition {
    Transition(Some(StateText(c.state)), StateText(to), c.version + 1, c.nextSequence, details.actor,
               details.occurredAt,
               Some(c.identity), details.correlationId, details.reason)
  }

  function Moved(c: Campaign, to: State, details: Details): Campaign {
    c.(state := to, version := c.version + 1, nextSequence := c.nextSequence + 1,
       history := c.history + [Record(c, to, details)])
  }

  datatype Command = Revise(scope: Scope) | Transit(move: Move, details: Details)

  /** The campaign after a call, or why the call is refused. */
  function Apply(c: Campaign, command: Command): Result<Campaign, Refusal> {
    match command
    case Revise(scope) =>
      if c.state != Draft then Failure(WrongState) else Success(c.(version := c.version + 1, scope := scope))
    case Transit(move, details) =>
      match ReasonRefusal(move, c.state, details.reason)
      case Some(refusal) => Failure(refusal)
      case None =>
        match TransitionRefusal(move, c.state, details)
        case Some(refusal) => Failure(refusal)
        case None => Success(Moved(c, Target(move), details))
  }

  /** A refused call leaves the campaign as it was. */
  function After(c: Campaign, command: Command): Campaign {
    match Apply(c, command)
    case Success(next) => next
    case Failure(_) => c
  }

  function Run(start: Campaign, commands: seq<Command>): Campaign {
    if commands == [] then start else After(Run(start, commands[..|commands| - 1]), commands[|commands| - 1])
  }

  // ----- what every run keeps -----

  predicate Edge(from: State, to: State) {
    match from
    case Draft => to == ReadyForAuthorization || to == Cancelled
    case ReadyForAuthorization => to == Authorized || to == Cancelled
    case Authorized => to == Active || to == Cancelled
    case Active => to == Suspended || to == Completed || to == Cancelled
    case Suspended => to == Active || to == Cancelled
    case Completed => false
    case Cancelled => false
  }

  predicate EdgeNeedsReason(from: State, to: State) {
    Edge(from, to) && from != Draft && !(from == ReadyForAuthorization && to == Cancelled)
  }

  predicate Terminal(s: State) {
    s == Completed || s == Cancelled
  }

  /** The state before record `i`, read off the history. */
  function StateBefore(history: seq<Transition>, i: nat): Option<State>
    requires i <= |history|
  {
    if i == 0 then Some(Draft) else ParseState(history[i - 1].toState)
  }

  /** Record `i` continues the path from DRAFT along an allowed edge, numbered, dated, and reasoned. */
  ghost predicate Continues(c: Campaign, i: nat)
    requires i < |c.history|
  {
    var r := c.history[i];
    && ValidTransition(r) && r.sequence == i + 1 && r.identity == Some(c.identity)
    && r.version == c.version - |c.history| + i + 1
    && HasStep(c.history, i)
  }

  ghost predicate HasStep(history: seq<Transition>, i: nat)
    requires i < |history|
  {
    exists from, to :: IsStep(history, i, from, to)
  }

  ghost predicate IsStep(history: seq<Transition>, i: nat, from: State, to: State)
    requires i < |history|
  {
    && StateBefore(history, i) == Some(from) && history[i].fromState == Some(StateText(from))
    && history[i].toState == StateText(to) && Edge(from, to)
    && (EdgeNeedsReason(from, to) ==> history[i].reason.Some?)
  }

  /** The shape of a campaign: a path of allowed edges from DRAFT to its state, consecutive sequence numbers, and
      versions that rise by one from the number of accepted revisions. */
  ghost predicate WellFormed(c: Campaign) {
    && c.nextSequence == |c.history| + 1 && c.version >= |c.history|
    && (forall i :: 0 <= i < |c.history| ==> Continues(c, i))
    && StateBefore(c.history, |c.history|) == Some(c.state)
  }

  lemma ApplyAfterReason(c: Campaign, move: Move, details: Details)
    requires ReasonRefusal(move, c.state, details.reason) == None
    ensures var refusal := TransitionRefusal(move, c.state, details);
            Apply(c, Transit(move, details))
            == if refusal.Some? then Failure(refusal.value) else Success(Moved(c, Target(move), details))
  {
  }

  lemma MovesAreEdges(move: Move, from: State)
    requires MayMove(move, from)
    ensures Edge(from, Target(move)) && (EdgeNeedsReason(from, Target(move)) <==> InsistsOnReason(move, from))
  {
  }

  lemma MovedWellFormed(c: Campaign, move: Move, details: Details)
    requires WellFormed(c) && Apply(c, Transit(move, details)).Success?
    ensures WellFormed(Moved(c, Target(move), details))
  {
    var d := Moved(c, Target(move), details);
    assert d.history[..|c.history|] == c.history;
    NewRecordContinues(c, move, details);
    AfterStep(d.history, |c.history|, c.state, Target(move));
    OneMoreRecord(c, d);
  }

  lemma OneMoreRecord(c: Campaign, d: Campaign)
    requires WellFormed(c) && |d.history| == |c.history| + 1 && d.history[..|c.history|] == c.history
    requires d.identity == c.identity && d.version == c.version + 1 && d.nextSequence == c.nextSequence + 1
    requires Continues(d, |c.history|) && StateBefore(d.history, |d.history|) == Some(d.state)
    ensures WellFormed(d)
  {
    assert c.history[..|c.history|] == c.history;
    SameRecords(c, d, |c.history|);
  }

  /** Campaigns that share their first `n` records and count versions alike have the same path that far. */
  lemma SameRecords(c: Campaign, d: Campaign, n: nat)
    requires n <= |c.history| && n <= |d.history| && c.history[..n] == d.history[..n]
    requires c.identity == d.identity && c.version - |c.history| == d.version - |d.history|
    requires forall i :: 0 <= i < n ==> Continues(c, i)
    ensures forall i :: 0 <= i < n ==> Continues(d, i)
    ensures StateBefore(c.history, n) == StateBefore(d.history, n)
  {
    forall i | 0 <= i < n
      ensures Continues(d, i)
    {
      assert Continues(c, i);
      SameStep(c.history, d.history, n, i);
    }
    SamePath(c.history, d.history, n, n);
  }

  lemma NewRecordContinues(c: Campaign, move: Move, details: Details)
    requires WellFormed(c) && Apply(c, Transit(move, details)).Success?
    ensures var d := Moved(c, Target(move), details);
            IsStep(d.history, |c.history|, c.state, Target(move)) && Continues(d, |c.history|)
  {
    var d := Moved(c, Target(move), details);
    assert d.history[..|c.history|] == c.history[..|c.history|];
    SamePath(c.history, d.history, |c.history|, |c.history|);
    MovesAreEdges(move, c.state);
    StateTextNotBlank(c.state);
    StateTextNotBlank(Target(move));
    assert IsStep(d.history, |c.history|, c.state, Target(move));
  }

  lemma SamePath(a: seq<Transition>, b: seq<Transition>, n: nat, i: nat)
    requires i <= n <= |a| && n <= |b| && a[..n] == b[..n]
    ensures StateBefore(a, i) == StateBefore(b, i)
  {
    assert i > 0 ==> a[i - 1] == a[..n][i - 1] == b[i - 1];
  }

  /** A step of a history is one of every history that agrees with it so far. */
  lemma SameStep(a: seq<Transition>, b: seq<Transition>, n: nat, i: nat)
    requires i < n <= |a| && n <= |b| && a[..n] == b[..n] && HasStep(a, i)
    ensures a[i] == b[i] && HasStep(b, i)
  {
    SamePath(a, b, n, i);
    assert a[i] == a[..n][i] == b[i];
    var from, to :| IsStep(a, i, from, to);
    assert IsStep(b, i, from, to);
  }

  lemma ApplyKeepsWellFormed(c: Campaign, command: Command)
    requires WellFormed(c) && Apply(c, command).Success?
    ensures WellFormed(Apply(c, command).value)
  {
    match command
    case Revise(scope) =>
      assert |c.history| > 0 ==> Continues(c, |c.history| - 1);
      DraftHasNoHistory(c);
    case Transit(move, details) =>
      MovedWellFormed(c, move, details);
  }

  lemma DraftHasNoHistory(c: Campaign)
    requires WellFormed(c)
    ensures c.state == Draft <==> c.history == []
  {
    if c.history != [] {
      var from := LastEdge(c);
    }
  }

  lemma LastStep(c: Campaign) returns (from: State, to: State)
    requires WellFormed(c) && c.history != []
    ensures IsStep(c.history, |c.history| - 1, from, to)
  {
    assert Continues(c, |c.history| - 1);
    from, to :| IsStep(c.history, |c.history| - 1, from, to);
  }

  lemma LastEdge(c: Campaign) returns (from: State)
    requires WellFormed(c) && c.history != []
    ensures Edge(from, c.state)
  {
    var f, t := LastStep(c);
    AfterStep(c.history, |c.history| - 1, f, t);
    from := f;
  }

  lemma AfterStep(history: seq<Transition>, i: nat, from: State, to: State)
    requires i < |history| && IsStep(history, i, from, to)
    ensures StateBefore(history, i + 1) == Some(to) && Edge(from, to)
  {
    ParseInverse(history[i].toState, to);
  }

  lemma {:induction false} RunsWellFormed(identity: Identity, scope: Scope, commands: seq<Command>)
    ensures WellFormed(Run(New(identity, scope), commands))
    ensures Run(New(identity, scope), commands).identity == identity
  {
    if commands == [] {
    } else {
      var c := Run(New(identity, scope), commands[..|commands| - 1]);
      RunsWellFormed(identity, scope, commands[..|commands| - 1]);
      if Apply(c, commands[|commands| - 1]).Success? {
        ApplyKeepsWellFormed(c, commands[|commands| - 1]);
      }
    }
  }

  function AcceptedRevisions(start: Campaign, commands: seq<Command>): nat {
    if commands == [] then 0
    else
      var front, last := commands[..|commands| - 1], commands[|commands| - 1];
      AcceptedRevisions(start, front) + if last.Revise? && Apply(Run(start, front), last).Success? then 1 else 0
  }

  /** The version counts transitions plus accepted revisions. */
  lemma {:induction false} VersionCounts(identity: Identity, scope: Scope, commands: seq<Command>)
    ensures var c := Run(New(identity, scope), commands);
            c.version == |c.history| + AcceptedRevisions(New(identity, scope), commands)
  {
    if commands == [] {
    } else {
      VersionCounts(identity, scope, commands[..|commands| - 1]);
    }
  }

  /** History only grows; after DRAFT the scope is fixed; a terminal campaign never changes again. */
  ghost predicate Preserves(a: Campaign, b: Campaign) {
    && a.history <= b.history && a.version <= b.version && b.identity == a.identity
    && (a.state != Draft ==> b.scope == a.scope && b.state != Draft)
    && (Terminal(a.state) ==> b == a)
  }

  lemma {:induction false} NeverUndone(start: Campaign, commands: seq<Command>, n: nat)
    requires n <= |commands|
    ensures Preserves(Run(start, commands[..n]), Run(start, commands))
    decreases |commands| - n
  {
    if n == |commands| {
      assert commands[..n] == commands;
    } else {
      assert commands[..n + 1][..n] == commands[..n];
      NeverUndone(start, commands, n + 1);
      ApplyPreserves(Run(start, commands[..n]), commands[n]);
    }
  }

  lemma ApplyPreserves(c: Campaign, command: Command)
    ensures Preserves(c, After(c, command))
  {
  }

  // ----- exactly the reachable campaigns -----

  /** The method that takes an edge. */
  function MoveAlong(from: State, to: State): Move {
    match to
    case ReadyForAuthorization => PrepareForAuthorization
    case Authorized => RecordAuthorization
    case Active => if from == Suspended then Resume else Activate
    case Suspended => Suspend
    case Completed => Complete
    case _ => Cancel
  }

  lemma EdgeHasMove(from: State, to: State)
    requires Edge(from, to)
    ensures MayMove(MoveAlong(from, to), from) && Target(MoveAlong(from, to)) == to
  {
  }

  /** The campaign before its last transition. */
  ghost function Unmoved(c: Campaign, from: State): Campaign
    requires c.history != [] && c.version > 0 && c.nextSequence > 0
  {
    c.(state := from, version := c.version - 1, nextSequence := c.nextSequence - 1,
       history := c.history[..|c.history| - 1])
  }

  lemma UnmovedWellFormed(c: Campaign, from: State, to: State)
    requires WellFormed(c) && c.history != [] && IsStep(c.history, |c.history| - 1, from, to)
    ensures WellFormed(Unmoved(c, from))
  {
    SameRecords(c, Unmoved(c, from), |c.history| - 1);
  }

  lemma LastMove(c: Campaign, from: State, to: State)
    requires WellFormed(c) && c.history != [] && IsStep(c.history, |c.history| - 1, from, to)
    ensures var r := c.history[|c.history| - 1];
            var move := Transit(MoveAlong(from, to), Details(r.actor, r.occurredAt, r.correlationId, r.reason));
            Apply(Unmoved(c, from), move) == Success(c)
  {
    var r := c.history[|c.history| - 1];
    var details := Details(r.actor, r.occurredAt, r.correlationId, r.reason);
    LastFacts(c, from, to, r);
    LastAllowed(from, to, r, details);
    LastRecord(c, from, to, details);
    EdgeHasMove(from, to);
  }

  lemma LastFacts(c: Campaign, from: State, to: State, r: Transition)
    requires WellFormed(c) && c.history != [] && IsStep(c.history, |c.history| - 1, from, to)
    requires r == c.history[|c.history| - 1]
    ensures c.nextSequence == |c.history| + 1 && c.version >= 1 && c.state == to
    ensures ValidTransition(r) && Edge(from, to) && (EdgeNeedsReason(from, to) ==> r.reason.Some?)
    ensures r.fromState == Some(StateText(from)) && r.toState == StateText(to) && r.version == c.version
    ensures r.sequence == |c.history| && r.identity == Some(c.identity)
  {
    LastNumbers(c, r);
    LastPath(c.history, from, to, r);
  }

  lemma LastNumbers(c: Campaign, r: Transition)
    requires WellFormed(c) && c.history != [] && r == c.history[|c.history| - 1]
    ensures c.nextSequence == |c.history| + 1 && c.version >= 1
    ensures ValidTransition(r) && r.version == c.version && r.sequence == |c.history|
    ensures r.identity == Some(c.identity)
  {
    assert Continues(c, |c.history| - 1);
  }

  lemma LastPath(history: seq<Transition>, from: State, to: State, r: Transition)
    requires history != [] && IsStep(history, |history| - 1, from, to) && r == history[|history| - 1]
    ensures StateBefore(history, |history|) == Some(to)
    ensures Edge(from, to) && (EdgeNeedsReason(from, to) ==> r.reason.Some?)
    ensures r.fromState == Some(StateText(from)) && r.toState == StateText(to)
  {
    AfterStep(history, |history| - 1, from, to);
  }

  /** Nothing is refused on the way along an edge that was recorded. */
  lemma LastAllowed(from: State, to: State, r: Transition, details: Details)
    requires Edge(from, to) && ValidTransition(r) && (EdgeNeedsReason(from, to) ==> r.reason.Some?)
    requires details == Details(r.actor, r.occurredAt, r.correlationId, r.reason)
    ensures ReasonRefusal(MoveAlong(from, to), from, details.reason) == None
    ensures TransitionRefusal(MoveAlong(from, to), from, details) == None
  {
    EdgeHasMove(from, to);
    MovesAreEdges(MoveAlong(from, to), from);
  }

  lemma LastRecord(c: Campaign, from: State, to: State, details: Details)
    requires c.history != [] && c.nextSequence == |c.history| + 1 && c.version >= 1 && c.state == to
    requires var r := c.history[|c.history| - 1];
             && r.fromState == Some(StateText(from)) && r.toState == StateText(to) && r.version == c.version
             && r.sequence == |c.history| && r.identity == Some(c.identity)
             && details == Details(r.actor, r.occurredAt, r.correlationId, r.reason)
    ensures Moved(Unmoved(c, from), to, details) == c
  {
    var r := c.history[|c.history| - 1];
    assert c.history == c.history[..|c.history| - 1] + [r];
  }

  lemma {:induction false} Revisions(identity: Identity, scope: Scope, n: nat)
    ensures Run(New(identity, scope), seq(n, _ => Revise(scope))) == Campaign(identity, scope, Draft, n, 1, [])
  {
    if n == 0 {
    } else {
      Revisions(identity, scope, n - 1);
      assert seq(n, _ => Revise(scope))[..n - 1] == seq(n - 1, _ => Revise(scope));
    }
  }

  lemma {:induction false} CommandsFor(c: Campaign) returns (commands: seq<Command>)
    requires WellFormed(c)
    ensures Run(New(c.identity, c.scope), commands) == c
    decreases |c.history|
  {
    DraftHasNoHistory(c);
    if c.history == [] {
      commands := seq(c.version, _ => Revise(c.scope));
      Revisions(c.identity, c.scope, c.version);
    } else {
      var r := c.history[|c.history| - 1];
      var from, to := LastStep(c);
      UnmovedWellFormed(c, from, to);
      var earlier := CommandsFor(Unmoved(c, from));
      var command := Transit(MoveAlong(from, to), Details(r.actor, r.occurredAt, r.correlationId, r.reason));
      LastMove(c, from, to);
      RunNext(New(c.identity, c.scope), earlier, command);
      commands := earlier + [command];
    }
  }

  lemma RunNext(start: Campaign, commands: seq<Command>, command: Command)
    ensures Run(start, commands + [command]) == After(Run(start, commands), command)
  {
    assert (commands + [command])[..|commands|] == commands;
  }

  /** The campaigns that runs of method calls can produce are exactly the well-formed ones. */
  lemma ReachableExactly(c: Campaign)
    ensures WellFormed(c) <==> exists scope: Scope, commands :: Run(New(c.identity, scope), commands) == c
  {
    if WellFormed(c) {
      var commands := CommandsFor(c);
    }
    if scope: Scope, commands :| Run(New(c.identity, scope), commands) == c {
      RunsWellFormed(c.identity, scope, commands);
    }
  }

  // ----- the object -----

  /** The aggregate root, updated in place. Every method either changes it as `Apply` says or refuses. */
  class Root {
    const identity: Identity
    var scope: Scope
    var state: State
    var version: nat
    var nextSequence: nat
    var history: seq<Transition>

    function Value(): Campaign
      reads this
    {
      Campaign(identity, scope, state, version, nextSequence, history)
    }

    ghost predicate Valid()
      reads this
    {
      WellFormed(Value())
    }

    constructor (identity: Identity, scope: Scope)
      ensures Valid() && Value() == New(identity, scope)
    {
      this.identity := identity;
      this.scope := scope;
      state, version, nextSequence, history := Draft, 0, 1, [];
    }

    method ReviseScopeStatement(revised: Scope) returns (refusal: Option<Refusal>)
      requires Valid()
      modifies this
      ensures Valid() && Value() == After(old(Value()), Revise(revised))
      ensures refusal == None <==> Apply(old(Value()), Revise(revised)).Success?
    {
      if state != Draft {
        return Some(WrongState);
      }
      ApplyKeepsWellFormed(Value(), Revise(revised));
      version := version + 1;
      scope := revised;
      return None;
    }

    method TransitionTo(move: Move, details: Details) returns (refusal: Option<Refusal>)
      requires Valid() && ReasonRefusal(move, state, details.reason) == None
      modifies this
      ensures Valid() && Value() == After(old(Value()), Transit(move, details))
      ensures refusal == None <==> Apply(old(Value()), Transit(move, details)).Success?
      ensures refusal.Some? ==> Apply(old(Value()), Transit(move, details)) == Failure(refusal.value)
    {
      refusal := TransitionRefusal(move, state, details);
      ghost var before := Value();
      ApplyAfterReason(before, move, details);
      if refusal == None {
        ApplyKeepsWellFormed(before, Transit(move, details));
        var nextVersion, currentSequence := version + 1, nextSequence;
        var record := Transition(
          Some(StateText(state)), StateText(Target(move)), nextVersion, currentSequence, details.actor,
          details.occurredAt, Some(identity), details.correlationId, details.reason);
        state := Target(move);
        version := nextVersion;
        nextSequence := currentSequence + 1;
        history := history + [record];
        assert Value() == Moved(before, Target(move), details);
      }
    }

    /** The lifecycle methods share this shape: the method's own check of the reason, then the transition. */
    method Call(move: Move, details: Details) returns (refusal: Option<Refusal>)
      requires Valid()
      modifies this
      ensures Valid() && Value() == After(old(Value()), Transit(move, details))
      ensures refusal == None <==> Apply(old(Value()), Transit(move, details)).Success?
      ensures refusal.Some? ==> Apply(old(Value()), Transit(move, details)) == Failure(refusal.value)
    {
      refusal := ReasonRefusal(move, state, details.reason);
      if refusal == None {
        refusal := TransitionTo(move, details);
      }
    }
  }

  // ----- which calls are answered, and how -----

  /** Where each lifecycle method may be called, and where it leads. */
  const CALLS: set<(Move, State, State)> := {
    (PrepareForAuthorization, Draft, ReadyForAuthorization), (RecordAuthorization, ReadyForAuthorization, Authorized),
    (Activate, Authorized, Active), (Suspend, Active, Suspended), (Resume, Suspended, Active),
    (Complete, Active, Completed), (Cancel, Draft, Cancelled), (Cancel, ReadyForAuthorization, Cancelled),
    (Cancel, Authorized, Cancelled), (Cancel, Active, Cancelled), (Cancel, Suspended, Cancelled)
  }

  /** A reason may be left out only for preparing, and for cancelling what is not yet authorized. */
  predicate MayOmitReason(move: Move, from: State) {
    move == PrepareForAuthorization || (move == Cancel && from in {Draft, ReadyForAuthorization, Completed, Cancelled})
  }

  lemma CallListed(move: Move, from: State, to: State)
    ensures (move, from, to) in CALLS <==> MayMove(move, from) && Target(move) == to
  {
  }

  /** A lifecycle call succeeds exactly along one of the calls listed, with an actor, a reason where one is needed, and
      no text that is blank. */
  lemma CallsExactly(c: Campaign, move: Move, details: Details, to: State)
    ensures Apply(c, Transit(move, details)).Success? && Apply(c, Transit(move, details)).value.state == to
       <==> && (move, c.state, to) in CALLS && NotBlank(details.actor)
            && (details.reason.Some? || MayOmitReason(move, c.state))
            && (details.reason.Some? ==> NotBlank(details.reason.value))
            && (details.correlationId.Some? ==> NotBlank(details.correlationId.value))
  {
    CallListed(move, c.state, to);
    ReasonNeeded(move, c.state);
  }

  lemma ReasonNeeded(move: Move, from: State)
    ensures InsistsOnReason(move, from) <==> !MayOmitReason(move, from)
  {
  }

  /** What a refused lifecycle call is refused for: its reason first, then the state, then the other texts. */
  lemma RefusalsExactly(c: Campaign, move: Move, details: Details)
    ensures var r := Apply(c, Transit(move, details));
            && (r == Failure(MissingReason) <==> details.reason == None && !MayOmitReason(move, c.state))
            && (r == Failure(WrongState) ==> forall to :: (move, c.state, to) !in CALLS)
            && (r == Failure(BlankValue) ==>
                  !NotBlank(details.actor) || !NotBlankIfGiven(details.reason)
                  || !NotBlankIfGiven(details.correlationId))
  {
    ReasonNeeded(move, c.state);
    forall to: State | true
      ensures (move, c.state, to) in CALLS <==> MayMove(move, c.state) && Target(move) == to
    {
      CallListed(move, c.state, to);
    }
  }

  /** An accepted lifecycle call appends one record that says what was called, with the details it was called with,
      under the next version and number, and touches nothing else. */
  lemma CallRecorded(c: Campaign, move: Move, details: Details)
    requires Apply(c, Transit(move, details)).Success?
    ensures var d := Apply(c, Transit(move, details)).value;
            var r := Transition(Some(StateText(c.state)), StateText(d.state), c.version + 1, c.nextSequence,
                                details.actor, details.occurredAt, Some(c.identity), details.correlationId,
                                details.reason);
            && d.history == c.history + [r] && d.version == c.version + 1 && d.nextSequence == c.nextSequence + 1
            && d.identity == c.identity && d.scope == c.scope
  {
  }

  /** A revision is accepted exactly in DRAFT, and replaces the scope and raises the version only. */
  lemma RevisionRecorded(c: Campaign, scope: Scope)
    ensures Apply(c, Revise(scope)).Success? <==> c.state == Draft
    ensures c.state == Draft ==>
              Apply(c, Revise(scope)).value
              == Campaign(c.identity, scope, Draft, c.version + 1, c.nextSequence, c.history)
  {
  }
}
