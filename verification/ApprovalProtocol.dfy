/** Runs of row operations over the proposal, decision and intent tables: what every run keeps, and the store that
    applies them in place. */
module ApprovalProtocol {
  import opened Wrappers
  import opened ApprovalTables

  // ----- the invariant -----

  /** At most one decision per proposal, and only about a stored proposal with its version and fingerprint. */
  ghost predicate DecisionsSound(t: Tables) {
    && (forall id :: id in t.decisions ==>
          var d := t.decisions[id];
          && DecisionStorable(id, d) && d.proposalId in t.proposals
          && d.version == t.proposals[d.proposalId].version
          && d.fingerprint == t.proposals[d.proposalId].fingerprint)
    && (forall a, b ::
          a in t.decisions && b in t.decisions && t.decisions[a].proposalId == t.decisions[b].proposalId ==> a == b)
  }

  /** Everything an intent claims about its proposal and its decision. */
  ghost predicate IntentSound(t: Tables, i: Intent) {
    && i.proposalId in t.proposals && i.decisionId in t.decisions
    && var p, d := t.proposals[i.proposalId], t.decisions[i.decisionId];
    && d.proposalId == i.proposalId && d.action == Approve && p.status == Approved
    && i.fingerprint == p.fingerprint == d.fingerprint
    && i.version == p.version == d.version
    && i.terms == p.terms
    && d.expiresAt.Some? && i.createdAt < d.expiresAt.value && i.createdAt < p.expiresAt
  }

  ghost predicate Invariant(t: Tables) {
    && DecisionsSound(t)
    && (forall id :: id in t.intents ==> IntentSound(t, t.intents[id]))
    && OneIntentEach(t)
  }

  ghost predicate OneIntentEach(t: Tables) {
    forall a, b :: a in t.intents && b in t.intents && t.intents[a].proposalId == t.intents[b].proposalId ==> a == b
  }

  lemma ProposalStepKeeps(t: Tables, id: string, p: Proposal)
    requires Invariant(t)
    requires id in t.proposals ==> p.(status := t.proposals[id].status) == t.proposals[id]
    requires id in t.proposals && t.proposals[id].status != Prepared ==> p == t.proposals[id]
    ensures Invariant(t.(proposals := t.proposals[id := p]))
  {
    var u := t.(proposals := t.proposals[id := p]);
    DecisionsUnderProposal(t, id, p);
    forall i | i in u.intents
      ensures IntentSound(u, u.intents[i])
    {
      IntentUnderProposal(t, id, p, t.intents[i]);
    }
  }

  lemma DecisionsUnderProposal(t: Tables, id: string, p: Proposal)
    requires DecisionsSound(t)
    requires id in t.proposals ==> p.(status := t.proposals[id].status) == t.proposals[id]
    ensures DecisionsSound(t.(proposals := t.proposals[id := p]))
  {
  }

  lemma IntentUnderProposal(t: Tables, id: string, p: Proposal, i: Intent)
    requires IntentSound(t, i)
    requires id in t.proposals && t.proposals[id].status != Prepared ==> p == t.proposals[id]
    ensures IntentSound(t.(proposals := t.proposals[id := p]), i)
  {
  }

  lemma DecisionStepKeeps(t: Tables, id: string, d: Decision)
    requires Invariant(t) && id !in t.decisions
    requires DecisionAllowed(t, d) && DecisionUnique(t, d) && DecisionStorable(id, d)
    ensures Invariant(t.(decisions := t.decisions[id := d]))
  {
    var u := t.(decisions := t.decisions[id := d]);
    NewDecisionSound(t, id, d);
    forall i | i in u.intents
      ensures IntentSound(u, u.intents[i])
    {
      IntentUnderDecision(t, id, d, t.intents[i]);
    }
  }

  lemma NewDecisionSound(t: Tables, id: string, d: Decision)
    requires DecisionsSound(t) && id !in t.decisions
    requires DecisionAllowed(t, d) && DecisionUnique(t, d) && DecisionStorable(id, d)
    ensures DecisionsSound(t.(decisions := t.decisions[id := d]))
  {
  }

  lemma IntentUnderDecision(t: Tables, id: string, d: Decision, i: Intent)
    requires IntentSound(t, i) && id !in t.decisions
    ensures IntentSound(t.(decisions := t.decisions[id := d]), i)
  {
  }

  lemma IntentStepKeeps(t: Tables, id: string, i: Intent)
    requires Invariant(t) && id !in t.intents && IntentAllowed(t, i) && IntentUnique(t, i)
    ensures Invariant(t.(intents := t.intents[id := i]))
  {
    var u := t.(intents := t.intents[id := i]);
    forall x | x in u.intents
      ensures IntentSound(u, u.intents[x])
    {
      NewIntentSound(t, id, i, u.intents[x]);
    }
    StillOneIntentEach(t, id, i);
  }

  lemma NewIntentSound(t: Tables, id: string, i: Intent, x: Intent)
    requires IntentAllowed(t, i) && (x == i || IntentSound(t, x))
    ensures IntentSound(t.(intents := t.intents[id := i]), x)
  {
  }

  lemma StillOneIntentEach(t: Tables, id: string, i: Intent)
    requires OneIntentEach(t) && id !in t.intents && IntentUnique(t, i)
    ensures OneIntentEach(t.(intents := t.intents[id := i]))
  {
  }

  lemma StepKeepsInvariant(t: Tables, op: Operation)
    requires Invariant(t)
    ensures Invariant(Step(t, op))
  {
    if Admitted(t, op) {
      match op
      case InsertProposal(id, p, _) => ProposalStepKeeps(t, id, p);
      case UpdateProposal(id, _, p) => ProposalStepKeeps(t, id, p);
      case InsertDecision(id, d) => DecisionStepKeeps(t, id, d);
      case InsertIntent(id, i, _) => IntentStepKeeps(t, id, i);
    }
  }

  lemma {:induction false} RunsKeepInvariant(ops: seq<Operation>)
    ensures Invariant(Run(ops))
  {
    if ops == [] {
    } else {
      RunsKeepInvariant(ops[..|ops| - 1]);
      StepKeepsInvariant(Run(ops[..|ops| - 1]), ops[|ops| - 1]);
    }
  }

  // ----- what later operations cannot undo -----

  /** Decisions and intents stay as they are; a proposal keeps everything but its status, and that only while
      it is PREPARED. */
  ghost predicate Extends(a: Tables, b: Tables) {
    && (forall id :: id in a.decisions ==> id in b.decisions && b.decisions[id] == a.decisions[id])
    && (forall id :: id in a.intents ==> id in b.intents && b.intents[id] == a.intents[id])
    && (forall id :: id in a.proposals ==>
          && id in b.proposals && b.proposals[id].(status := a.proposals[id].status) == a.proposals[id]
          && (a.proposals[id].status != Prepared ==> b.proposals[id] == a.proposals[id]))
  }

  lemma StepExtends(t: Tables, op: Operation)
    ensures Extends(t, Step(t, op))
  {
  }

  lemma ExtendsTransitive(a: Tables, b: Tables, c: Tables)
    requires Extends(a, b) && Extends(b, c)
    ensures Extends(a, c)
  {
  }

  /** The tables after `n` operations of a run. */
  function After(ops: seq<Operation>, n: nat): Tables
    requires n <= |ops|
  {
    Run(ops[..n])
  }

  lemma AfterNext(ops: seq<Operation>, n: nat)
    requires n < |ops|
    ensures After(ops, n + 1) == Step(After(ops, n), ops[n])
  {
    assert ops[..n + 1][..n] == ops[..n];
  }

  lemma {:induction false} LaterExtends(ops: seq<Operation>, n: nat, m: nat)
    requires n <= m <= |ops|
    ensures Extends(After(ops, n), After(ops, m))
    decreases m - n
  {
    if n == m {
    } else {
      LaterExtends(ops, n, m - 1);
      AfterNext(ops, m - 1);
      StepExtends(After(ops, m - 1), ops[m - 1]);
      ExtendsTransitive(After(ops, n), After(ops, m - 1), After(ops, m));
    }
  }

  /** An intent, once stored, is there for good, and so is everything it was admitted on: its proposal is
      APPROVED with the same terms, its one decision is an APPROVE, and fingerprint, version and expiries agree. */
  lemma IntentStandsForever(ops: seq<Operation>, n: nat, m: nat, id: string)
    requires n <= m <= |ops| && id in After(ops, n).intents
    ensures id in After(ops, m).intents && After(ops, m).intents[id] == After(ops, n).intents[id]
    ensures IntentSound(After(ops, m), After(ops, n).intents[id])
    ensures forall d :: d in After(ops, m).decisions
              && After(ops, m).decisions[d].proposalId == After(ops, n).intents[id].proposalId
              ==> d == After(ops, n).intents[id].decisionId
  {
    LaterExtends(ops, n, m);
    RunsKeepInvariant(ops[..m]);
  }

  /** The moment a decision is stored: its proposal is PREPARED, undecided, and without an intent. */
  lemma {:induction false} DecidedWhilePrepared(ops: seq<Operation>, id: string) returns (n: nat)
    requires id in Run(ops).decisions
    ensures n < |ops| && id !in After(ops, n).decisions
    ensures var d, t := Run(ops).decisions[id], After(ops, n);
            && ops[n] == InsertDecision(id, d)
            && d.proposalId in t.proposals && t.proposals[d.proposalId].status == Prepared
            && t.proposals[d.proposalId].version == d.version && t.proposals[d.proposalId].fingerprint == d.fingerprint
            && (forall x :: x in t.decisions ==> t.decisions[x].proposalId != d.proposalId)
            && (forall x :: x in t.intents ==> t.intents[x].proposalId != d.proposalId)
  {
    n := |ops| - 1;
    var t := Run(ops[..n]);
    if id in t.decisions {
      var earlier := DecidedWhilePrepared(ops[..n], id);
      assert ops[..n][..earlier] == ops[..earlier];
      n := earlier;
    } else {
      RunsKeepInvariant(ops[..n]);
      forall x | x in t.intents
        ensures t.intents[x].proposalId != Run(ops).decisions[id].proposalId
      {
        assert IntentSound(t, t.intents[x]);
      }
    }
  }

  /** Nothing can be decided about `id` any more, and nothing has been. */
  ghost predicate Undecidable(t: Tables, id: string) {
    && id in t.proposals && t.proposals[id].status != Prepared
    && (forall d :: d in t.decisions ==> t.decisions[d].proposalId != id)
    && (forall i :: i in t.intents ==> t.intents[i].proposalId != id)
  }

  lemma StepKeepsUndecidable(t: Tables, op: Operation, id: string)
    requires Undecidable(t, id)
    ensures Undecidable(Step(t, op), id)
  {
  }

  lemma {:induction false} UndecidableForever(ops: seq<Operation>, n: nat, m: nat, id: string)
    requires n <= m <= |ops| && Undecidable(After(ops, n), id)
    ensures Undecidable(After(ops, m), id)
    decreases m - n
  {
    if n == m {
    } else {
      UndecidableForever(ops, n, m - 1, id);
      AfterNext(ops, m - 1);
      StepKeepsUndecidable(After(ops, m - 1), ops[m - 1], id);
    }
  }

  /** A proposal first stored in any status but PREPARED, APPROVED included, never acquires a decision or an
      intent. */
  lemma InsertedDecidedNeverIntended(ops: seq<Operation>, n: nat, m: nat, id: string)
    requires n < m <= |ops|
    requires id !in After(ops, n).proposals && id in After(ops, n + 1).proposals
    requires After(ops, n + 1).proposals[id].status != Prepared
    ensures Undecidable(After(ops, m), id)
  {
    var t := After(ops, n);
    RunsKeepInvariant(ops[..n]);
    AfterNext(ops, n);
    forall i | i in t.intents
      ensures t.intents[i].proposalId != id
    {
      assert IntentSound(t, t.intents[i]);
    }
    UndecidableForever(ops, n + 1, m, id);
  }

  /** A proposal that leaves PREPARED without a decision never acquires an intent. */
  lemma UndecidedNeverIntended(ops: seq<Operation>, n: nat, m: nat, id: string)
    requires n <= m <= |ops| && id in After(ops, n).proposals && After(ops, n).proposals[id].status != Prepared
    requires forall d :: d in After(ops, n).decisions ==> After(ops, n).decisions[d].proposalId != id
    ensures Undecidable(After(ops, m), id)
  {
    var t := After(ops, n);
    RunsKeepInvariant(ops[..n]);
    forall i | i in t.intents
      ensures t.intents[i].proposalId != id
    {
      assert IntentSound(t, t.intents[i]);
    }
    UndecidableForever(ops, n, m, id);
  }

  /** A proposal ever decided REJECT or CANCEL has no intent at any moment of the run, before or after. */
  lemma DeclinedNeverIntended(ops: seq<Operation>, n: nat, m: nat, decision: string, intent: string)
    requires n <= |ops| && m <= |ops|
    requires decision in After(ops, n).decisions && After(ops, n).decisions[decision].action != Approve
    requires intent in After(ops, m).intents
    ensures After(ops, m).intents[intent].proposalId != After(ops, n).decisions[decision].proposalId
  {
    LaterExtends(ops, n, |ops|);
    LaterExtends(ops, m, |ops|);
    RunsKeepInvariant(ops[..|ops|]);
    assert IntentSound(After(ops, |ops|), After(ops, |ops|).intents[intent]);
  }

  /** The way to an intent exists: decide APPROVE while PREPARED, approve, then create the intent in time. */
  lemma ApprovedPath(t: Tables, id: string, decisionId: string, d: Decision, intentId: string, i: Intent)
    requires Invariant(t) && id in t.proposals && t.proposals[id].status == Prepared
    requires ProposalStorable(id, t.proposals[id]) && DecisionStorable(decisionId, d) && IntentStorable(intentId, i)
    requires decisionId !in t.decisions && intentId !in t.intents && DecisionUnique(t, d) && IntentUnique(t, i)
    requires d.action == Approve && d.proposalId == i.proposalId == id && i.decisionId == decisionId
    requires d.version == i.version == t.proposals[id].version
    requires d.fingerprint == i.fingerprint == t.proposals[id].fingerprint
    requires i.terms == t.proposals[id].terms
    requires i.createdAt < d.expiresAt.value && i.createdAt < t.proposals[id].expiresAt
    ensures var decided := Step(t, InsertDecision(decisionId, d));
            var approved := Step(decided, UpdateProposal(id, id, t.proposals[id].(status := Approved)));
            var intended := Step(approved, InsertIntent(intentId, i, true));
            intentId in intended.intents && intended.intents[intentId] == i
  {
    assert Admitted(t, InsertDecision(decisionId, d));
    var decided := Step(t, InsertDecision(decisionId, d));
    var approval := t.proposals[id].(status := Approved);
    assert decided == t.(decisions := t.decisions[decisionId := d]);
    assert Admitted(decided, UpdateProposal(id, id, approval));
    var approved := Step(decided, UpdateProposal(id, id, approval));
    assert approved == decided.(proposals := t.proposals[id := approval]);
    IntentAdmitted(approved, intentId, i);
  }

  lemma IntentAdmitted(t: Tables, id: string, i: Intent)
    requires IntentAllowed(t, i) && id !in t.intents && IntentUnique(t, i) && IntentStorable(id, i)
    ensures Step(t, InsertIntent(id, i, true)) == t.(intents := t.intents[id := i])
  {
  }

  // ----- status and decision -----

  /** Every decided proposal is still PREPARED or has the status its decision results in. */
  ghost predicate Tied(t: Tables) {
    forall d :: d in t.decisions ==> TiedTo(t, t.decisions[d])
  }

  predicate TiedTo(t: Tables, d: Decision) {
    d.proposalId in t.proposals ==> t.proposals[d.proposalId].status in {Prepared, d.resultingStatus}
  }

  /** The guard the update trigger lacks: a change of a decided proposal's status is to what the decision results
      in. Anybody can look this up before the update. */
  predicate Obeys(t: Tables, op: Operation) {
    match op
    case UpdateProposal(id, newId, p) =>
      Admitted(t, op) && p.status != t.proposals[id].status ==>
        forall d :: d in t.decisions && t.decisions[d].proposalId == id ==> p.status == t.decisions[d].resultingStatus
    case _ => true
  }

  lemma UpdateTies(t: Tables, id: string, newId: string, p: Proposal)
    requires Invariant(t) && Admitted(t, UpdateProposal(id, newId, p))
    ensures Tied(Step(t, UpdateProposal(id, newId, p))) <==> Tied(t) && Obeys(t, UpdateProposal(id, newId, p))
  {
    var u := Step(t, UpdateProposal(id, newId, p));
    forall d | d in t.decisions
      ensures TiedTo(u, t.decisions[d])
         <==> TiedTo(t, t.decisions[d])
              && (t.decisions[d].proposalId == id && p.status != t.proposals[id].status ==>
                    p.status == t.decisions[d].resultingStatus)
    {
    }
    assert u.decisions == t.decisions;
  }

  lemma InsertedDecisionTied(t: Tables, id: string, d: Decision)
    requires Admitted(t, InsertDecision(id, d))
    ensures Tied(Step(t, InsertDecision(id, d))) <==> Tied(t)
  {
    var u := Step(t, InsertDecision(id, d));
    assert u.decisions[id] == d && TiedTo(u, d);
    assert forall x :: x in t.decisions ==> u.decisions[x] == t.decisions[x];
  }

  lemma InsertedProposalTied(t: Tables, id: string, p: Proposal, linked: bool)
    requires Invariant(t) && Admitted(t, InsertProposal(id, p, linked))
    ensures Tied(Step(t, InsertProposal(id, p, linked))) <==> Tied(t)
  {
    assert forall x :: x in t.decisions ==> t.decisions[x].proposalId in t.proposals;
  }

  /** A step keeps status and decision tied exactly when it obeys. */
  lemma StepTied(t: Tables, op: Operation)
    requires Invariant(t)
    ensures Tied(Step(t, op)) <==> Tied(t) && Obeys(t, op)
  {
    if Admitted(t, op) {
      match op
      case InsertProposal(id, p, linked) => InsertedProposalTied(t, id, p, linked);
      case UpdateProposal(id, newId, p) => UpdateTies(t, id, newId, p);
      case InsertDecision(id, d) => InsertedDecisionTied(t, id, d);
      case InsertIntent(_, _, _) =>
    }
  }

  ghost predicate AllObey(ops: seq<Operation>) {
    forall n :: 0 <= n < |ops| ==> Obeys(After(ops, n), ops[n])
  }

  lemma AllObeyNext(front: seq<Operation>, op: Operation)
    ensures AllObey(front + [op]) <==> AllObey(front) && Obeys(Run(front), op)
  {
    var ops := front + [op];
    forall n | 0 <= n < |front|
      ensures After(ops, n) == After(front, n) && ops[n] == front[n]
    {
      assert ops[..n] == front[..n];
    }
    assert ops[..|front|] == front && ops[|front|] == op;
    assert AllObey(ops) ==> Obeys(After(ops, |front|), ops[|front|]);
  }

  /** Status and decision are tied at the end of a run exactly when every operation of the run obeyed. */
  lemma {:induction false} TiedExactly(ops: seq<Operation>)
    ensures Tied(Run(ops)) <==> AllObey(ops)
  {
    if ops == [] {
      assert Run(ops) == EMPTY;
    } else {
      var front, last := ops[..|ops| - 1], ops[|ops| - 1];
      assert ops == front + [last];
      TiedExactly(front);
      RunsKeepInvariant(front);
      StepTied(Run(front), last);
      AllObeyNext(front, last);
    }
  }

  /** Not every run obeys: this one leaves a rejected proposal APPROVED. It still gets no intent. */
  lemma RejectedCanBeApproved(p: Proposal, d: Decision)
    requires ProposalStorable("p", p) && p.status == Prepared
    requires DecisionStorable("d", d) && d.action == Reject && d.proposalId == "p"
    requires d.version == p.version && d.fingerprint == p.fingerprint
    ensures var t := Run([InsertProposal("p", p, true), InsertDecision("d", d),
                          UpdateProposal("p", "p", p.(status := Approved))]);
            && "p" in t.proposals && t.proposals["p"].status == Approved
            && "d" in t.decisions && t.decisions["d"].action == Reject && t.decisions["d"].proposalId == "p"
  {
    var ops := [InsertProposal("p", p, true), InsertDecision("d", d), UpdateProposal("p", "p", p.(status := Approved))];
    assert ops[..3] == ops;
    assert After(ops, 0) == EMPTY;
    AfterNext(ops, 0);
    AfterNext(ops, 1);
    AfterNext(ops, 2);
  }

  /** The tables with their guards, as the migration installs them. */
  class Store {
    var proposals: map<string, Proposal>
    var decisions: map<string, Decision>
    var intents: map<string, Intent>

    function Contents(): Tables
      reads this
    {
      Tables(proposals, decisions, intents)
    }

    ghost predicate Valid()
      reads this
    {
      Invariant(Contents())
    }

    constructor ()
      ensures Valid() && Contents() == EMPTY
    {
      proposals, decisions, intents := map[], map[], map[];
    }

    method InsertProposalRow(id: string, p: Proposal, linked: bool) returns (stored: bool)
      requires Valid()
      modifies this
      ensures Valid() && Contents() == Step(old(Contents()), InsertProposal(id, p, linked))
      ensures stored == Admitted(old(Contents()), InsertProposal(id, p, linked))
    {
      StepKeepsInvariant(Contents(), InsertProposal(id, p, linked));
      stored := linked && id !in proposals && ProposalStorable(id, p);
      if stored {
        proposals := proposals[id := p];
      }
    }

    method UpdateProposalRow(id: string, newId: string, p: Proposal) returns (stored: bool)
      requires Valid()
      modifies this
      ensures Valid() && Contents() == Step(old(Contents()), UpdateProposal(id, newId, p))
      ensures stored == Admitted(old(Contents()), UpdateProposal(id, newId, p))
    {
      StepKeepsInvariant(Contents(), UpdateProposal(id, newId, p));
      stored := id in proposals && UpdateAllowed(id, proposals[id], newId, p) && ProposalStorable(newId, p);
      if stored {
        proposals := proposals[id := p];
      }
    }

    method InsertDecisionRow(id: string, d: Decision) returns (stored: bool)
      requires Valid()
      modifies this
      ensures Valid() && Contents() == Step(old(Contents()), InsertDecision(id, d))
      ensures stored == Admitted(old(Contents()), InsertDecision(id, d))
    {
      StepKeepsInvariant(Contents(), InsertDecision(id, d));
      var t := Contents();
      stored := DecisionAllowed(t, d) && id !in decisions && DecisionUnique(t, d) && DecisionStorable(id, d);
      if stored {
        decisions := decisions[id := d];
      }
    }

    method InsertIntentRow(id: string, i: Intent, linked: bool) returns (stored: bool)
      requires Valid()
      modifies this
      ensures Valid() && Contents() == Step(old(Contents()), InsertIntent(id, i, linked))
      ensures stored == Admitted(old(Contents()), InsertIntent(id, i, linked))
    {
      StepKeepsInvariant(Contents(), InsertIntent(id, i, linked));
      var t := Contents();
      stored := linked && IntentAllowed(t, i) && id !in intents && IntentUnique(t, i) && IntentStorable(id, i);
      if stored {
        intents := intents[id := i];
      }
    }
  }
}
