/** The proposal, decision and intent tables with their constraints and triggers, as a state machine whose
    steps are arbitrary attempted row operations, applied one at a time.

    Rows carry the columns as stored; a column declared NOT NULL is never absent. Timestamps are integers and
    decimals are reals. Whether a foreign key into a table outside this model resolves is an input of the step. */
module ApprovalTables {
  import opened Wrappers
  import opened BlankText

  datatype Status = Prepared | Approved | Rejected | Cancelled | Expired | Invalidated

  datatype Action = Approve | Reject | Cancel

  datatype OrderType = Market | Limit

  datatype Side = Buy | Sell

  /** The order terms an intent must repeat. */
  datatype Terms = Terms(
    symbol: string,
    side: Side,
    quantity: int,
    orderType: OrderType,
    limitPrice: Option<real>,
    currency: string,
    mandatoryLiquidationAt: int)

  datatype Estimates = Estimates(
    notional: real,
    fees: real,
    slippage: real,
    totalCash: real,
    stopLoss: real,
    profitExit: real)

  datatype Proposal = Proposal(
    version: int,
    contextId: string,
    configurationId: string,
    configurationVersion: int,
    terms: Terms,
    estimates: Estimates,
    createdAt: int,
    expiresAt: int,
    fingerprint: string,
    status: Status)

  datatype Decision = Decision(
    proposalId: string,
    version: int,
    fingerprint: string,
    action: Action,
    operator: string,
    decidedAt: int,
    expiresAt: Option<int>,
    resultingStatus: Status)

  datatype Intent = Intent(
    proposalId: string,
    version: int,
    fingerprint: string,
    decisionId: string,
    terms: Terms,
    idempotencyKey: string,
    configurationId: string,
    configurationVersion: int,
    contextId: string,
    createdAt: int,
    expiresAt: int)

  datatype Tables = Tables(
    proposals: map<string, Proposal>,
    decisions: map<string, Decision>,
    intents: map<string, Intent>)

  /** An attempted row operation. `linked` says whether the row's foreign keys into tables outside this model
      resolve. */
  datatype Operation =
    | InsertProposal(id: string, proposal: Proposal, linked: bool)
    | UpdateProposal(id: string, newId: string, proposal: Proposal)
    | DeleteProposal(id: string)
    | InsertDecision(id: string, decision: Decision)
    | UpdateDecision(id: string, newId: string, decision: Decision)
    | DeleteDecision(id: string)
    | InsertIntent(id: string, intent: Intent, linked: bool)
    | UpdateIntent(id: string, newId: string, intent: Intent)
    | DeleteIntent(id: string)

  // ----- CHECK constraints -----

  predicate HexDigest(s: string) {
    |s| == 64 && forall i :: 0 <= i < 64 ==> '0' <= s[i] <= '9' || 'a' <= s[i] <= 'f'
  }

  predicate TermsStorable(t: Terms) {
    t.side == Buy && t.quantity > 0 && (t.orderType == Limit <==> t.limitPrice.Some?)
  }

  predicate ProposalStorable(id: string, p: Proposal) {
    && NotBlank(id) && p.version >= 1 && TermsStorable(p.terms) && HexDigest(p.fingerprint)
    && p.expiresAt > p.createdAt && p.estimates.stopLoss > 0.0 && p.estimates.profitExit > p.estimates.stopLoss
  }

  function StatusOf(action: Action): Status {
    match action
    case Approve => Approved
    case Reject => Rejected
    case Cancel => Cancelled
  }

  predicate DecisionStorable(id: string, d: Decision) {
    && NotBlank(id) && NotBlank(d.operator) && d.resultingStatus == StatusOf(d.action) && HexDigest(d.fingerprint)
    && (if d.action == Approve then d.expiresAt.Some? && d.expiresAt.value > d.decidedAt else d.expiresAt == None)
  }

  predicate IntentStorable(id: string, i: Intent) {
    && NotBlank(id) && NotBlank(i.idempotencyKey) && TermsStorable(i.terms) && HexDigest(i.fingerprint)
    && i.expiresAt > i.createdAt
  }

  // ----- triggers -----

  /** Only `status` may change, and only out of PREPARED. */
  predicate UpdateAllowed(id: string, before: Proposal, newId: string, after: Proposal) {
    && newId == id && after.(status := before.status) == before
    && (after.status == before.status || (before.status == Prepared && after.status != Prepared))
  }

  predicate DecisionAllowed(t: Tables, d: Decision) {
    && d.proposalId in t.proposals
    && var p := t.proposals[d.proposalId];
    p.status == Prepared && d.version == p.version && d.fingerprint == p.fingerprint
  }

  predicate IntentAllowed(t: Tables, i: Intent) {
    && i.proposalId in t.proposals && i.decisionId in t.decisions
    && var p, d := t.proposals[i.proposalId], t.decisions[i.decisionId];
    && d.proposalId == i.proposalId && d.action == Approve && p.status == Approved
    && i.fingerprint == p.fingerprint && i.fingerprint == d.fingerprint
    && i.version == p.version && i.version == d.version
    && i.terms == p.terms
    && d.expiresAt.Some? && i.createdAt < d.expiresAt.value && i.createdAt < p.expiresAt
  }

  // ----- UNIQUE constraints -----

  predicate DecisionUnique(t: Tables, d: Decision) {
    forall id :: id in t.decisions ==> t.decisions[id].proposalId != d.proposalId
  }

  predicate IntentUnique(t: Tables, i: Intent) {
    forall id :: id in t.intents ==>
      t.intents[id].proposalId != i.proposalId && t.intents[id].idempotencyKey != i.idempotencyKey
  }

  // ----- steps -----

  /** An operation on a row that does not exist affects no rows; updates and deletes of decisions and intents,
      and deletes of proposals, are refused by the append-only trigger. */
  predicate Admitted(t: Tables, op: Operation) {
    match op
    case InsertProposal(id, p, linked) => linked && id !in t.proposals && ProposalStorable(id, p)
    case UpdateProposal(id, newId, p) =>
      id in t.proposals && UpdateAllowed(id, t.proposals[id], newId, p) && ProposalStorable(newId, p)
    case InsertDecision(id, d) =>
      DecisionAllowed(t, d) && id !in t.decisions && DecisionUnique(t, d) && DecisionStorable(id, d)
    case InsertIntent(id, i, linked) =>
      linked && IntentAllowed(t, i) && id !in t.intents && IntentUnique(t, i) && IntentStorable(id, i)
    case _ => false
  }

  /** The tables after the operation; a refused one changes nothing. */
  function Step(t: Tables, op: Operation): Tables {
    if !Admitted(t, op) then t
    else match op
      case InsertProposal(id, p, _) => t.(proposals := t.proposals[id := p])
      case UpdateProposal(id, _, p) => t.(proposals := t.proposals[id := p])
      case InsertDecision(id, d) => t.(decisions := t.decisions[id := d])
      case InsertIntent(id, i, _) => t.(intents := t.intents[id := i])
      case _ => t
  }

  const EMPTY := Tables(map[], map[], map[])

  /** The tables after a run of attempted operations. */
  function Run(ops: seq<Operation>): Tables {
    if ops == [] then EMPTY else Step(Run(ops[..|ops| - 1]), ops[|ops| - 1])
  }
}
