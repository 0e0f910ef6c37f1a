/** What the stored rows look like after any run, and exactly which attempted rows are stored. */
module ApprovalRows {
  import opened Wrappers
  import opened BlankText
  import opened ApprovalTables
  import opened ApprovalProtocol

  predicate TermsRow(t: Terms) {
    t.side == Buy && t.quantity > 0 && (t.orderType == Limit <==> t.limitPrice.Some?)
  }

  predicate Digest(s: string) {
    |s| == 64 && forall c :: c in s ==> '0' <= c <= '9' || 'a' <= c <= 'f'
  }

  predicate ProposalRow(id: string, p: Proposal) {
    && NotBlank(id) && p.version >= 1 && TermsRow(p.terms) && Digest(p.fingerprint) && p.createdAt < p.expiresAt
    && 0.0 < p.estimates.stopLoss < p.estimates.profitExit
  }

  /** Each action has one resulting status, and only an approval lapses. */
  predicate DecisionRow(id: string, d: Decision) {
    && NotBlank(id) && NotBlank(d.operator) && Digest(d.fingerprint)
    && (d.action == Approve <==> d.resultingStatus == Approved)
    && (d.action == Reject <==> d.resultingStatus == Rejected)
    && (d.action == Cancel <==> d.resultingStatus == Cancelled)
    && (d.action == Approve <==> d.expiresAt.Some?) && (d.expiresAt.Some? ==> d.decidedAt < d.expiresAt.value)
  }

  predicate IntentRow(id: string, i: Intent) {
    && NotBlank(id) && NotBlank(i.idempotencyKey) && TermsRow(i.terms) && Digest(i.fingerprint)
    && i.createdAt < i.expiresAt
  }

  lemma DigestIsHex(s: string)
    ensures HexDigest(s) <==> Digest(s)
  {
    if HexDigest(s) {
      forall c | c in s
        ensures '0' <= c <= '9' || 'a' <= c <= 'f'
      {
        var i :| 0 <= i < |s| && s[i] == c;
      }
    }
    if Digest(s) {
      forall i | 0 <= i < 64
        ensures '0' <= s[i] <= '9' || 'a' <= s[i] <= 'f'
      {
        assert s[i] in s;
      }
    }
  }

  // ----- after any run -----

  ghost predicate AllRows(t: Tables) {
    && (forall id :: id in t.proposals ==> ProposalStorable(id, t.proposals[id]))
    && (forall id :: id in t.decisions ==> DecisionStorable(id, t.decisions[id]))
    && (forall id :: id in t.intents ==> IntentStorable(id, t.intents[id]))
  }

  ghost predicate KeysUsedOnce(t: Tables) {
    forall a, b ::
      a in t.intents && b in t.intents && t.intents[a].idempotencyKey == t.intents[b].idempotencyKey ==> a == b
  }

  lemma StepUsesKeysOnce(t: Tables, op: Operation)
    requires KeysUsedOnce(t)
    ensures KeysUsedOnce(Step(t, op))
  {
  }

  lemma StepKeepsRows(t: Tables, op: Operation)
    requires AllRows(t)
    ensures AllRows(Step(t, op))
  {
  }

  lemma {:induction false} RunKeepsRows(ops: seq<Operation>)
    ensures AllRows(Run(ops)) && KeysUsedOnce(Run(ops))
  {
    if ops == [] {
    } else {
      RunKeepsRows(ops[..|ops| - 1]);
      StepKeepsRows(Run(ops[..|ops| - 1]), ops[|ops| - 1]);
      StepUsesKeysOnce(Run(ops[..|ops| - 1]), ops[|ops| - 1]);
    }
  }

  /** After every run each stored row satisfies its table's constraints, and no idempotency key is used twice. */
  lemma RunsStoreOnlyRows(ops: seq<Operation>)
    ensures var t := Run(ops);
            && (forall id :: id in t.proposals ==> ProposalRow(id, t.proposals[id]))
            && (forall id :: id in t.decisions ==> DecisionRow(id, t.decisions[id]))
            && (forall id :: id in t.intents ==> IntentRow(id, t.intents[id]))
            && KeysUsedOnce(t)
  {
    var t := Run(ops);
    RunKeepsRows(ops);
    forall id | id in t.proposals
      ensures ProposalRow(id, t.proposals[id])
    {
      DigestIsHex(t.proposals[id].fingerprint);
    }
    forall id | id in t.decisions
      ensures DecisionRow(id, t.decisions[id])
    {
      DigestIsHex(t.decisions[id].fingerprint);
    }
    forall id | id in t.intents
      ensures IntentRow(id, t.intents[id])
    {
      DigestIsHex(t.intents[id].fingerprint);
    }
  }

  // ----- exactly which rows are stored -----

  /** A new proposal row is stored exactly when it satisfies the constraints and its references resolve. */
  lemma ProposalStoredExactly(t: Tables, id: string, p: Proposal, linked: bool)
    requires id !in t.proposals
    ensures var u := Step(t, InsertProposal(id, p, linked));
            if linked && ProposalRow(id, p) then u == t.(proposals := t.proposals[id := p]) else u == t
  {
    DigestIsHex(p.fingerprint);
  }

  /** A new decision row is stored exactly when it satisfies the constraints and is about a PREPARED, undecided
      proposal with this version and fingerprint: approvals, rejections and cancellations alike. */
  lemma DecisionStoredExactly(t: Tables, id: string, d: Decision)
    requires id !in t.decisions
    ensures var u := Step(t, InsertDecision(id, d));
            if && DecisionRow(id, d) && d.proposalId in t.proposals
               && t.proposals[d.proposalId].status == Prepared && d.version == t.proposals[d.proposalId].version
               && d.fingerprint == t.proposals[d.proposalId].fingerprint
               && forall x :: x in t.decisions ==> t.decisions[x].proposalId != d.proposalId
            then u == t.(decisions := t.decisions[id := d]) else u == t
  {
    DigestIsHex(d.fingerprint);
  }

  /** A new intent row is stored exactly when it satisfies the constraints, repeats the terms, version and fingerprint
      of an APPROVED proposal and of that proposal's approval, is created before either expires, and uses a proposal
      and a key no other intent uses. */
  lemma IntentStoredExactly(t: Tables, id: string, i: Intent, linked: bool)
    requires id !in t.intents
    ensures var u := Step(t, InsertIntent(id, i, linked));
            if && linked && IntentRow(id, i) && IntentSound(t, i)
               && forall x :: x in t.intents ==>
                    t.intents[x].proposalId != i.proposalId && t.intents[x].idempotencyKey != i.idempotencyKey
            then u == t.(intents := t.intents[id := i]) else u == t
  {
    DigestIsHex(i.fingerprint);
  }

  /** After any run, an update changes something exactly when it moves a PREPARED proposal to another status, whichever
      of the five, and leaves all else as it is. */
  lemma StatusMovesExactly(ops: seq<Operation>, id: string, newId: string, p: Proposal)
    requires id in Run(ops).proposals
    ensures var t := Run(ops);
            var u := Step(t, UpdateProposal(id, newId, p));
            if && newId == id && p == t.proposals[id].(status := p.status)
               && t.proposals[id].status == Prepared
               && p.status in {Approved, Rejected, Cancelled, Expired, Invalidated}
            then u == t.(proposals := t.proposals[id := p]) && u != t else u == t
  {
    RunKeepsRows(ops);
    var t := Run(ops);
    if newId == id && p == t.proposals[id].(status := p.status) {
      DigestIsHex(p.fingerprint);
      if p.status == t.proposals[id].status {
        assert t.proposals[id := p] == t.proposals;
      } else {
        assert t.proposals[id := p][id] != t.proposals[id];
      }
    }
  }
}
