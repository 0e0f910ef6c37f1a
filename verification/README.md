# Verified model of the decision platform's ledgers, protocols and replays

This project models the parts of `empirical_platform` where several operations, several time axes or several tables
must agree, and proves that they do. Every main result is a statement over all inputs, all runs or all reachable
states. `dafny verify dfyconfig.toml` checks the whole project.

What is modelled, hardest first:

- **The operator position ledger and its point-in-time views.** Events are appended in one order, happen in a second
  and are recorded in a third. `PositionFold` is the fold of one position, `PositionLedger` the append-only log with
  its runs, `PositionState` the derivation at a moment, `EvidenceAvailability` the view from what was recorded by a
  cutoff K, `RoundTrip` and `RoundTripAccounting` the exact integer accounting of visible exits, `DecimalText` the
  money printer and parser, and `RoundTripRatio` the exact ratio with its rendering. `PositionReport`,
  `SnapshotReport` and `RoundTripReport` say what every field of the three reports means in terms of the events, and
  `AppendRefusals` which reason a refused event is given.
- **The decision-to-approval protocol.** `ApprovalTables` is the transition system of row operations that the M084
  triggers and constraints admit; `ApprovalProtocol` is the store and the safety of every run; `ApprovalRows` says
  what stored rows look like and exactly which are stored.
- **The Campaign aggregate.** `Campaign.dfy` (module `CampaignAggregate`) is the state machine with its counters and
  history; `CampaignReconstruction` the durable mapping, the reconstruction and the round trips between them;
  `CampaignRefusals` the category a refused state is given.
- **The historical backtest.** `TradeSimulation` simulates one trade and computes the drawdown; `Backtest` is the
  nested replay with causality; `BacktestTrades` says where each trade comes from and what the totals add up to, and
  `BacktestCompleteness` that no approved position goes without its trade.
- **Smaller cores.** `SecretScanBatches` (optimal greedy batching), `Membership` (effective-dated intervals and the
  universe at a cutoff), `CorporateActionRecords`, `CorporateActions`, `SymbolHistory`, `SplitFactors` and
  `SplitAdjustment` (symbol chains, split factors, derived datasets), `HistoricalEvidence`, `EvidenceReasons` and
  `EvidenceSearch` (the compatibility rule, its reasons and the ranked search).
- **Shared.** `Sorting` (filters, sums, stable sort), `StableSorting` (sorting twice), `Grouping` (dictionaries of
  lists), `Products` (running products), `Wrappers`, `BlankText`.

Loops of the source are methods with loops, proved equal to specification functions; what the source promises is
proved about those functions. Objects updated in place are classes: `PositionLedger.Ledger`, `ApprovalProtocol.Store`,
`CampaignAggregate.Root`.

Where a promised property fails for some input, the code is modelled as it is and the exact condition is proved:

- Permuting the known events leaves the evidence snapshot unchanged if and only if no unresolved key mixes
  instruments; an unresolved entry names the instrument of whichever event is listed first. On ledgers built by appends
  the condition always holds.
- The backward walk of `symbol_at` is the forward replay at every moment if and only if `current_symbol` is what the
  last change left.
- An adjusted bar is constructible if and only if its low does not round to zero (or its factor is one); a whole
  derivation succeeds if and only if that holds of every bar, every series is known and every action is about an
  imported instrument.
- Reconstruction accepts some campaigns no run produces; `ReachableIffRestorable` says which are reachable.
- The tables do not tie a proposal's status to its decision: a rejected proposal can be set to APPROVED, though it
  still never acquires an intent. After a run every decided proposal is PREPARED or in its decision's resulting status
  if and only if each admitted status change of a decided proposal in the run was to that status.

Where the code and its documentation differ, the code is followed:

- `_evaluate_compatibility` documents the order H, W, C, U, S, F; it checks H, W, C, coverage, F, S and then U, so
  stale evidence with a foreign universe is STALE.
- The split factors are documented as applied in effective-timestamp order; they follow the stored order, which sorts
  by ISO text. Over exact numbers the product is the same in every order.

## Model

| member | source | states |
|---|---|---|
| `PositionFold.ConstructionError` | src/empirical_platform/decision_candidate/operator_position_ledger.py:142-209 | an event is constructible exactly when its timestamps are aware, its price is a number and admissible, its quantity is not negative, and only a close may carry none; a NaN price raises `InvalidOperation` before any ledger rejection |
| `PositionFold.FoldOnePosition` | src/empirical_platform/decision_candidate/operator_position_ledger.py:262-340 | the loop over one position: returns the opening, the open quantity and the flag of `Fold`, or its first refusal, for every list of events |
| `PositionFold.FoldCharacterised` | src/empirical_platform/decision_candidate/operator_position_ledger.py:262-340 | the fold accepts exactly the coherent lives: one OPENED, then REDUCEDs, then at most one CLOSED, on one instrument, reduced by at most what was opened, and by less if closed; and reports what such a life leaves open |
| `PositionFold.CoherentFilter` | src/empirical_platform/decision_candidate/operator_position_ledger.py:262-340 | hiding events other than the opening keeps a life coherent and can only leave more open |
| `PositionFold.FoldWithoutOpening` | src/empirical_platform/decision_candidate/operator_position_ledger.py:300-340 | a sequence that does not start with an opening, the empty one included, is refused as not open |
| `PositionLedger.AppendKeepsInvariant` | src/empirical_platform/decision_candidate/operator_position_ledger.py:352-394 | an accepted append, back-dated or not, keeps the ledger invariant |
| `PositionLedger.RunsKeepInvariant` | src/empirical_platform/decision_candidate/operator_position_ledger_repository.py:26-39 | after every run of attempted appends each key is a coherent life, identifiers are distinct, and every stored close carries, positively, what the log then said was open |
| `PositionLedger.ReachableExactly` | src/empirical_platform/decision_candidate/operator_position_ledger_repository.py:26-39 | the logs that runs can produce are exactly those whose every prefix has the invariant |
| `PositionLedger.ValidationIgnoresReadOrder` | src/empirical_platform/decision_candidate/operator_position_ledger.py:352-394 | the order in which stored rows are read back changes no verdict and no derived quantity |
| `PositionLedger.Ledger.constructor` | src/empirical_platform/decision_candidate/operator_position_ledger_repository.py:1-10 | a new ledger holds no events |
| `PositionLedger.Ledger.Append` | src/empirical_platform/decision_candidate/operator_position_ledger_repository.py:26-39 | appends the persisted event or changes nothing and says why, exactly as `AppendResult`; keeps the invariant |
| `AppendRefusals.ConstructionRefusals` | src/empirical_platform/decision_candidate/operator_position_ledger.py:142-209 | which of its five reasons the event constructor gives, each exactly when its condition holds and no earlier check failed |
| `AppendRefusals.RefusedForFirst` | src/empirical_platform/decision_candidate/operator_position_ledger.py:262-340 | a sequence that does not fold is refused for its first event that does not fit, with the reason that event has against the life before it |
| `AppendRefusals.AppendDecided` | src/empirical_platform/decision_candidate/operator_position_ledger.py:352-394 | an event behind everything of its position is stored or refused by what that life leaves open, each reason exactly, a stored close carrying the remainder |
| `AppendRefusals.AcceptedExactly` | src/empirical_platform/decision_candidate/operator_position_ledger.py:352-394 | any append, back-dated or not, is accepted exactly when the event can exist, its identifier is new, and the life with it in place is coherent; a close only behind everything and while something is open |
| `PositionState.GroupByPosition` | src/empirical_platform/decision_candidate/operator_position_ledger.py:343-349 | the dictionary of lists: keys in order of first occurrence, each with its events in order |
| `PositionState.FoldGroups` | src/empirical_platform/decision_candidate/operator_position_ledger.py:416-434 | the loop over the sorted keys splits the positions into open and closed, or stops at the first refusal |
| `PositionState.DerivePositionState` | src/empirical_platform/decision_candidate/operator_position_ledger.py:397-453 | the whole derivation equals `DeriveState` on every list of events and every moment, and a naive moment is rejected |
| `PositionState.DeriveEachCharacterised` | src/empirical_platform/decision_candidate/operator_position_ledger.py:416-434 | a derivation is refused exactly when some considered key does not fold; otherwise it lists one position per key, that key's own |
| `PositionState.DerivationNeverRefuses` | src/empirical_platform/decision_candidate/operator_position_ledger.py:397-434 | on a ledger built by appends the derivation is never refused, at any `as_of` |
| `PositionState.DerivationIgnoresOrder` | src/empirical_platform/decision_candidate/operator_position_ledger.py:397-453 | permuting the events, identifiers distinct, leaves the whole derivation unchanged, refusals included |
| `PositionReport.LifeIsChronological` | src/empirical_platform/decision_candidate/operator_position_ledger.py:255-259 | the events of a position are folded by timestamp, identifiers deciding ties, none left out |
| `PositionReport.TotalsReported` | src/empirical_platform/decision_candidate/operator_position_ledger.py:413-449 | considered and excluded count the events by their timestamps; the total quantity is the sum of what each life leaves open, the total notional that sum at the opening prices |
| `PositionReport.PositionsReported` | src/empirical_platform/decision_candidate/operator_position_ledger.py:419-434 | one position per key that counts, ascending, open ones apart from closed ones, and every field is what the life of the key says |
| `EvidenceAvailability.EvaluateKey` | src/empirical_platform/decision_candidate/operator_evidence_availability.py:304-340 | one key: its position through the ledger's own derivation, or its refusal kept as unresolved |
| `EvidenceAvailability.SnapshotFromKnownEvidence` | src/empirical_platform/decision_candidate/operator_evidence_availability.py:246-368 | the snapshot equals `SnapshotOf` for every list of known events |
| `EvidenceAvailability.BuildSnapshot` | src/empirical_platform/decision_candidate/operator_evidence_availability.py:371-417 | naive cutoffs raise; an unavailable ledger gives the withheld snapshot; otherwise the snapshot of what was recorded by K |
| `EvidenceAvailability.UnresolvedIffRefused` | src/empirical_platform/decision_candidate/operator_evidence_availability.py:220-243 | some key is unresolved exactly when the whole-ledger derivation of the known events is refused |
| `EvidenceAvailability.SnapshotRefinesDerivation` | src/empirical_platform/decision_candidate/operator_evidence_availability.py:304-368 | otherwise the entries are that derivation's open and closed positions, no more and no fewer; and open, closed and unresolved counts add up to the visible keys |
| `EvidenceAvailability.EveryKeyCounted` | src/empirical_platform/decision_candidate/operator_evidence_availability.py:342-368 | one entry per visible key; the three counts share them out |
| `EvidenceAvailability.OrderInvisibleExactly` | src/empirical_platform/decision_candidate/operator_evidence_availability.py:304-342 | the snapshot is unchanged by every permutation of the known events if and only if no unresolved key mixes instruments |
| `EvidenceAvailability.OrderShowsSymbol` | src/empirical_platform/decision_candidate/operator_evidence_availability.py:304-322 | and where an unresolved key does mix them, a permutation that shows |
| `EvidenceAvailability.MixedReductionsShowOrder` | src/empirical_platform/decision_candidate/operator_evidence_availability.py:304-322 | the input that shows it: two reductions of one position on different instruments, listed one way and the other |
| `EvidenceAvailability.LedgerOrderInvisible` | src/empirical_platform/decision_candidate/operator_evidence_availability.py:304-342 | on ledgers built by appends no permutation of the known events is visible |
| `EvidenceAvailability.VisibleLifeFolds` | src/empirical_platform/decision_candidate/operator_evidence_availability.py:194-204 | what (E, K) shows of a position is a coherent life with the same opening if that was recorded by K, and is refused as not open otherwise |
| `EvidenceAvailability.UnresolvedIffOpeningUnrecorded` | src/empirical_platform/decision_candidate/operator_evidence_availability.py:304-340 | a visible position is unresolved exactly when its opening was recorded after K, and always with the reason that it is not open |
| `SnapshotReport.EntryReported` | src/empirical_platform/decision_candidate/operator_evidence_availability.py:304-340 | an entry is open, closed or unresolved by what its life leaves open, and everything else in it is that life's position, or the reason it does not fold |
| `SnapshotReport.SnapshotCounts` | src/empirical_platform/decision_candidate/operator_evidence_availability.py:344-368 | the counts are those of the known events, of those stamped by E, and of the visible keys of each status |
| `SnapshotReport.SnapshotInOrder` | src/empirical_platform/decision_candidate/operator_evidence_availability.py:342-343 | entries are listed by instrument, then by position |
| `RoundTrip.EntryForKey` | src/empirical_platform/decision_candidate/operator_asserted_round_trip.py:372-472 | one key: equals `RoundTripAt`, the integer accounting of its visible exits |
| `RoundTrip.ReportFromKnownEvidence` | src/empirical_platform/decision_candidate/operator_asserted_round_trip.py:475-607 | the report equals `ReportOf` for every list of known events |
| `RoundTrip.BuildReport` | src/empirical_platform/decision_candidate/operator_asserted_round_trip.py:610-662 | naive cutoffs raise; an unavailable ledger gives the withheld report; otherwise the report on what was recorded by K |
| `RoundTrip.ViewsAgree` | src/empirical_platform/decision_candidate/operator_asserted_round_trip.py:381-431 | both views agree on which keys are unresolved and why, and a position is known open exactly when its still-open quantity is positive |
| `RoundTrip.SameKeysListed` | src/empirical_platform/decision_candidate/operator_asserted_round_trip.py:346-352 | both views list the same keys, once each |
| `RoundTripAccounting.EntryQuantities` | src/empirical_platform/decision_candidate/operator_asserted_round_trip.py:413-431 | a resolved entry's quantities are the opening's, the sum of visible exits, and what the visible life leaves open; its money is present exactly when something exited |
| `RoundTripAccounting.UnaccountedExplained` | src/empirical_platform/decision_candidate/operator_asserted_round_trip.py:422-431 | `unaccounted_quantity` is 0 unless the close is visible; then it is the reductions present when the close was appended but now hidden, minus the visible ones appended after it |
| `RoundTripAccounting.GapNeedsExit` | src/empirical_platform/decision_candidate/operator_asserted_round_trip.py:422-431 | a gap implies that something has exited |
| `RoundTripAccounting.ExitedIffStatus` | src/empirical_platform/decision_candidate/operator_asserted_round_trip.py:424-454 | money is present exactly under the statuses that say something exited |
| `RoundTripAccounting.QuantitiesConserved` | src/empirical_platform/decision_candidate/operator_asserted_round_trip.py:413-422 | with full knowledge and no back-dating: opened is exited plus still open, at every E |
| `RoundTripAccounting.LateEvidenceInvisible` | src/empirical_platform/decision_candidate/operator_evidence_availability.py:194-204 | an event recorded after K, wherever it stands, changes neither view |
| `RoundTripReport.StatusDecided` | src/empirical_platform/decision_candidate/operator_asserted_round_trip.py:420-431 | for every visible key that folds the status is decided by opened, exited and still open quantities, one status for every case, without naming the status function |
| `RoundTripReport.UnresolvedReported` | src/empirical_platform/decision_candidate/operator_asserted_round_trip.py:377-404 | an entry is unresolved exactly when its key does not fold, with the fold's reason, and then computes nothing |
| `RoundTripReport.MoneyReported` | src/empirical_platform/decision_candidate/operator_asserted_round_trip.py:407-472 | every field of an entry that folds: quantities and proceeds are sums over all its events but the opening, and each text parses to exactly its amount |
| `RoundTripReport.ReportCounts` | src/empirical_platform/decision_candidate/operator_asserted_round_trip.py:519-607 | the counts are those of the known events, of those stamped by E, and of the visible keys of each status |
| `RoundTripReport.ReportInOrder` | src/empirical_platform/decision_candidate/operator_asserted_round_trip.py:342-343 | entries are listed by instrument, then by position |
| `DecimalText.MoneyRoundTrip` | src/empirical_platform/decision_candidate/operator_asserted_round_trip_ratio.py:159-181 | parsing a printed amount gives it back, for every integer |
| `DecimalText.MoneyIsCanonical` | src/empirical_platform/decision_candidate/operator_asserted_round_trip.py:253-275 | the printed text has no exponent, no trailing fractional zero, no stray leading zero and no negative zero |
| `DecimalText.CanonicalReprints` | src/empirical_platform/decision_candidate/operator_asserted_round_trip.py:253-275 | every canonical text is the print of the amount it parses to: printing is a bijection |
| `DecimalText.ParsedExactly` | src/empirical_platform/decision_candidate/operator_asserted_round_trip_ratio.py:159-181 | which texts the parser reads, with at most six decimals behind the first point, and as which amount; any other raises |
| `DecimalText.ScaledPriceExact` | src/empirical_platform/decision_candidate/operator_asserted_round_trip.py:223-250 | a price scales to its coefficient times the power of ten of its exponent and six, with its sign |
| `DecimalText.AdmittedPriceScales` | src/empirical_platform/decision_candidate/operator_asserted_round_trip.py:223-250 | every price the ledger admits scales to an integer strictly between 0 and 10^20 |
| `DecimalText.SameTextIffSameValue` | src/empirical_platform/decision_candidate/operator_asserted_round_trip.py:223-275 | two admitted digit/exponent forms print alike exactly when they are the same number |
| `RoundTripRatio.GcdGreatest` | src/empirical_platform/decision_candidate/operator_asserted_round_trip_ratio.py:184-196 | the divisor used for reduction is the greatest common one |
| `RoundTripRatio.ReducedLowestTerms` | src/empirical_platform/decision_candidate/operator_asserted_round_trip_ratio.py:184-196 | the reduced pair is the same rational, in lowest terms, over a positive denominator |
| `RoundTripRatio.ReducedCanonical` | src/empirical_platform/decision_candidate/operator_asserted_round_trip_ratio.py:184-196 | two fractions reduce to one pair exactly when they are equal |
| `RoundTripRatio.RenderingEncloses` | src/empirical_platform/decision_candidate/operator_asserted_round_trip_ratio.py:245-266 | plain text is exactly the ratio; a "~" text has its sign, a smaller magnitude and is less than 10^-6 away; a bound text is an open interval that contains it |
| `RoundTripRatio.ZeroOnlyForZero` | src/empirical_platform/decision_candidate/operator_asserted_round_trip_ratio.py:251-266 | "0" is printed for an exact zero only |
| `RoundTripRatio.NeverPrintsTotalLoss` | src/empirical_platform/decision_candidate/operator_asserted_round_trip_ratio.py:245-266 | a ratio above -1 never prints as -1 or less |
| `RoundTripRatio.RatioOfPosition` | src/empirical_platform/decision_candidate/operator_asserted_round_trip_ratio.py:319-359 | parsed back from the printed money, the ratio of every position with an exit is exactly the gain over the entry price divided by the cost at the entry price over the visible exits, reduced, and above -1 |
| `RoundTripRatio.RatioPresence` | src/empirical_platform/decision_candidate/operator_asserted_round_trip_ratio.py:319-359 | on ledgers built by appends a ratio is present exactly under PARTIAL, FULLY_EXITED and UNRECONCILED, computing it never raises, and an absent one carries the right reason |
| `TradeSimulation.SimulateTrade` | src/empirical_platform/decision_candidate/historical_backtest.py:478-597 | the loop over the horizon returns the trade of `Simulated` |
| `TradeSimulation.ExitsAtFirstTouch` | src/empirical_platform/decision_candidate/historical_backtest.py:495-569 | no entry exactly when the first open is at or beyond a level; otherwise the exit is the first bar of the horizon that touches one, the stop winning ties |
| `TradeSimulation.TradeSettled` | src/empirical_platform/decision_candidate/historical_backtest.py:525-597 | a stop is paid at the stop, a target at the target, a time exit at the last close; gross, costs in basis points, net and the risk multiple are what they say; a trade never entered comes to nothing |
| `TradeSimulation.TradeBounds` | src/empirical_platform/decision_candidate/historical_backtest.py:525-570 | the exit price lies between stop and target, strictly inside on a time exit, so the gross result is bounded by both |
| `TradeSimulation.Drawdown` | src/empirical_platform/decision_candidate/historical_backtest.py:600-617 | the one pass returns the largest fall between two cumulated results, the start included, over executed trades by exit time and sequence; nothing exactly when none was executed |
| `TradeSimulation.DeepestIsMaxDrawdown` | src/empirical_platform/decision_candidate/historical_backtest.py:607-617 | running peak and deepest fall compute that quadratic maximum |
| `TradeSimulation.DrawdownIgnoresOrder` | src/empirical_platform/decision_candidate/historical_backtest.py:601-604 | it does not depend on the order in which the trades are listed |
| `TradeSimulation.MaxDrawdownUnique` | src/empirical_platform/decision_candidate/historical_backtest.py:607-617 | there is one such maximum and it is never negative |
| `TradeSimulation.InExitOrder` | src/empirical_platform/decision_candidate/historical_backtest.py:600-605 | the drawdown is taken over exactly the executed trades, by exit time, then sequence number |
| `Backtest.ProcessRanked` | src/empirical_platform/decision_candidate/historical_backtest.py:689-748 | the loop over ranked opportunities with its counters equals `FoldRanked` |
| `Backtest.ProcessCutoff` | src/empirical_platform/decision_candidate/historical_backtest.py:654-748 | one cutoff: windows, scan, then the ranked loop |
| `Backtest.BuildRun` | src/empirical_platform/decision_candidate/historical_backtest.py:636-748 | the nested loops equal `RunOf`, failures included |
| `Backtest.SameCutoffs` | src/empirical_platform/decision_candidate/historical_backtest.py:654-748 | a run up to a cutoff reads no bar behind its last holding horizon |
| `Backtest.Causality` | src/empirical_platform/decision_candidate/historical_backtest.py:637-748 | if a run succeeds, so does the run over the first m bars for every m long enough, and its trades, references and numbers included, are the first trades of the longer run |
| `Backtest.CommonPastCommonTrades` | src/empirical_platform/decision_candidate/historical_backtest.py:637-748 | two datasets with a common past: both runs begin with the trades of that past |
| `BacktestTrades.RunIsAccounted` | src/empirical_platform/decision_candidate/historical_backtest.py:645-748 | trades are numbered without gaps, carry ever larger plan references and the scan and candidate numbers of their own cutoff and series, agree with the counters, and take size, rank and score from what plan and scan decided on the bars up to their cutoff |
| `BacktestTrades.NoLookAhead` | src/empirical_platform/decision_candidate/historical_backtest.py:726-748 | every trade was decided at the close of a bar of its own series, enters strictly later at the next open and is over within its horizon |
| `BacktestTrades.RunTradesBounded` | src/empirical_platform/decision_candidate/historical_backtest.py:525-570 | every trade of every run exits between its stop and its target |
| `BacktestTrades.RunReconciles` | src/empirical_platform/decision_candidate/historical_backtest.py:750-770 | wins + losses + flat + no-entry = simulated = approved positions; net = gross less costs = gains plus losses |
| `BacktestTrades.TotalsReconcile` | src/empirical_platform/decision_candidate/historical_backtest.py:750-770 | the same for any list of simulated trades |
| `BacktestTrades.TotalsCount` | src/empirical_platform/decision_candidate/historical_backtest.py:750-770 | executed, wins, losses, flat, time exits and missed entries are the numbers of trades with that outcome or sign |
| `BacktestTrades.WinsAndLosses` | src/empirical_platform/decision_candidate/historical_backtest.py:750-770 | something is won in all exactly when some trade won, and lost exactly when some trade lost |
| `BacktestCompleteness.InInstrumentOrder` | src/empirical_platform/decision_candidate/historical_backtest.py:640-640 | the series are worked off by ascending instrument, none left out |
| `BacktestCompleteness.EveryApprovalTraded` | src/empirical_platform/decision_candidate/historical_backtest.py:654-748 | over every finished run: the opportunities are every place of every scan, once, in order; the counters count them, those planned and those approved; the trades are those on the approved ones, one each, in that order, under their numbers |
| `BacktestCompleteness.ApprovalTradedOnce` | src/empirical_platform/decision_candidate/historical_backtest.py:707-748 | every approved opportunity has its trade, with its sizing, and no other trade of that instrument at that cutoff where a scan ranks no series twice |
| `BacktestCompleteness.FinishesExactly` | src/empirical_platform/decision_candidate/historical_backtest.py:636-748 | a run finishes exactly when the window is not empty, the bars suffice, every scan and plan answers, and no local reference needs a fifth digit |
| `ApprovalProtocol.Store.constructor` | migrations/versions/a3f7c21d9b04_create_m084_decision_to_approval_schema.py:555-560 | a new store has empty tables |
| `ApprovalProtocol.Store.InsertProposalRow` | migrations/versions/a3f7c21d9b04_create_m084_decision_to_approval_schema.py:592-625 | inserts exactly what the proposal's constraints admit |
| `ApprovalProtocol.Store.UpdateProposalRow` | migrations/versions/a3f7c21d9b04_create_m084_decision_to_approval_schema.py:124-174 | updates exactly what the update trigger admits: status only, out of PREPARED only |
| `ApprovalProtocol.Store.InsertDecisionRow` | migrations/versions/a3f7c21d9b04_create_m084_decision_to_approval_schema.py:198-237 | inserts exactly what the decision trigger and constraints admit |
| `ApprovalProtocol.Store.InsertIntentRow` | migrations/versions/a3f7c21d9b04_create_m084_decision_to_approval_schema.py:258-332 | inserts exactly what the intent trigger and constraints admit |
| `ApprovalProtocol.RunsKeepInvariant` | migrations/versions/a3f7c21d9b04_create_m084_decision_to_approval_schema.py:258-332 | over every run of row operations each intent has exactly one decision on its proposal, an APPROVE, and fingerprint, version and terms agree and its creation precedes both expiries |
| `ApprovalProtocol.IntentStandsForever` | migrations/versions/a3f7c21d9b04_create_m084_decision_to_approval_schema.py:106-115 | an intent, once stored, never changes or goes, and everything it was admitted on stays true |
| `ApprovalProtocol.DecidedWhilePrepared` | migrations/versions/a3f7c21d9b04_create_m084_decision_to_approval_schema.py:198-237 | every stored decision was made while its proposal was PREPARED, undecided and without an intent |
| `ApprovalProtocol.LaterExtends` | migrations/versions/a3f7c21d9b04_create_m084_decision_to_approval_schema.py:106-115 | later tables extend earlier ones: no row is lost and no stored term changes |
| `ApprovalProtocol.UndecidableForever` | migrations/versions/a3f7c21d9b04_create_m084_decision_to_approval_schema.py:124-174 | a proposal that can no longer be decided never will be, and has no intent |
| `ApprovalProtocol.InsertedDecidedNeverIntended` | migrations/versions/a3f7c21d9b04_create_m084_decision_to_approval_schema.py:198-237 | a proposal first stored in any status but PREPARED, APPROVED included, never acquires an intent |
| `ApprovalProtocol.UndecidedNeverIntended` | migrations/versions/a3f7c21d9b04_create_m084_decision_to_approval_schema.py:198-237 | a proposal that leaves PREPARED undecided never acquires an intent |
| `ApprovalProtocol.DeclinedNeverIntended` | migrations/versions/a3f7c21d9b04_create_m084_decision_to_approval_schema.py:712-742 | a proposal ever decided REJECT or CANCEL has no intent at any moment of the run |
| `ApprovalProtocol.ApprovedPath` | migrations/versions/a3f7c21d9b04_create_m084_decision_to_approval_schema.py:258-332 | the path to an intent exists: decide APPROVE while PREPARED, approve, create the intent in time |
| `ApprovalProtocol.StepTied` | migrations/versions/a3f7c21d9b04_create_m084_decision_to_approval_schema.py:124-174 | from any reachable tables an operation leaves status and decisions tied exactly when they were and it obeys: an admitted status change of a decided proposal is to its decision's resulting status |
| `ApprovalProtocol.TiedExactly` | migrations/versions/a3f7c21d9b04_create_m084_decision_to_approval_schema.py:124-174 | after a run status and decisions are tied if and only if every operation of the run obeyed |
| `ApprovalProtocol.RejectedCanBeApproved` | migrations/versions/a3f7c21d9b04_create_m084_decision_to_approval_schema.py:124-174 | the input that breaks the tie: a run that leaves a rejected proposal APPROVED |
| `ApprovalRows.RunsStoreOnlyRows` | migrations/versions/a3f7c21d9b04_create_m084_decision_to_approval_schema.py:592-744 | after every run each stored row satisfies its constraints; an action has exactly its resulting status, and only approvals expire; no idempotency key is used twice |
| `ApprovalRows.ProposalStoredExactly` | migrations/versions/a3f7c21d9b04_create_m084_decision_to_approval_schema.py:592-625 | which new proposal rows are stored |
| `ApprovalRows.DecisionStoredExactly` | migrations/versions/a3f7c21d9b04_create_m084_decision_to_approval_schema.py:198-237 | which new decision rows are stored: approvals, rejections and cancellations alike, each with its own resulting status, on a PREPARED undecided proposal |
| `ApprovalRows.IntentStoredExactly` | migrations/versions/a3f7c21d9b04_create_m084_decision_to_approval_schema.py:258-332 | which new intent rows are stored |
| `ApprovalRows.StatusMovesExactly` | migrations/versions/a3f7c21d9b04_create_m084_decision_to_approval_schema.py:124-174 | after any run an update changes something exactly when it moves a PREPARED proposal to one of the five other statuses and nothing else |
| `CampaignAggregate.Root.constructor` | src/empirical_platform/campaign/aggregate.py:42-60 | a new campaign is a DRAFT without history |
| `CampaignAggregate.Root.ReviseScopeStatement` | src/empirical_platform/campaign/aggregate.py:94-105 | changes scope and version in DRAFT and nothing otherwise |
| `CampaignAggregate.Root.TransitionTo` | src/empirical_platform/campaign/aggregate.py:254-292 | state, version, sequence and history move together, or nothing moves |
| `CampaignAggregate.Root.Call` | src/empirical_platform/campaign/aggregate.py:107-252 | every lifecycle method: its own check of the reason, then the transition; a refused call changes nothing |
| `CampaignAggregate.RunsWellFormed` | src/empirical_platform/campaign/aggregate.py:94-292 | over every run, refused calls included: the history is a path of allowed edges from DRAFT to the state, numbered 1 to n, with strictly increasing versions up to the current one and a reason wherever one is required |
| `CampaignAggregate.VersionCounts` | src/empirical_platform/campaign/aggregate.py:94-105 | the version counts transitions plus accepted revisions |
| `CampaignAggregate.NeverUndone` | src/empirical_platform/campaign/aggregate.py:94-292 | later campaigns keep the history, the scope once out of DRAFT and a terminal state |
| `CampaignAggregate.ReachableExactly` | src/empirical_platform/campaign/aggregate.py:94-292 | the campaigns runs can produce are exactly the well-formed ones |
| `CampaignAggregate.ParseInverse` | src/empirical_platform/campaign/mapper.py:137-167 | a state's text parses to that state and to no other |
| `CampaignAggregate.CallsExactly` | src/empirical_platform/campaign/aggregate.py:107-252 | a lifecycle call succeeds exactly along one of eleven listed calls, with an actor, a reason where one is needed, and no blank text |
| `CampaignAggregate.RefusalsExactly` | src/empirical_platform/campaign/aggregate.py:107-252 | a missing reason is named exactly when one is needed, the state only when no call leads out of it, a blank text only when one is blank |
| `CampaignAggregate.CallRecorded` | src/empirical_platform/campaign/aggregate.py:254-292 | an accepted call appends one record with the details it was called with, under the next version and number, and touches nothing else |
| `CampaignAggregate.RevisionRecorded` | src/empirical_platform/campaign/aggregate.py:94-105 | a revision is accepted exactly in DRAFT, and replaces the scope and raises the version only |
| `CampaignReconstruction.ValidateTransitionHistory` | src/empirical_platform/shared/domain/reconstruction.py:80-169 | the loop over the history equals `HistoryCheck`, category of the first violation included |
| `CampaignReconstruction.ValidateTerminalReason` | src/empirical_platform/campaign/_reconstruction.py:135-167 | the loop over the history equals `ReasonsGiven` |
| `CampaignReconstruction.Reconstruct` | src/empirical_platform/campaign/_reconstruction.py:99-132 | reconstruction equals `Restored`, refusals included |
| `CampaignReconstruction.RestoresExactly` | src/empirical_platform/campaign/_reconstruction.py:99-132 | it accepts exactly the restorable states and restores them unchanged |
| `CampaignReconstruction.FinalReasonImplied` | src/empirical_platform/campaign/_reconstruction.py:135-167 | the clause about the final record refuses nothing the per-record clause accepts |
| `CampaignRefusals.FaultNamed` | src/empirical_platform/shared/domain/reconstruction.py:80-169 | the first record off the path decides the category: a wrong number of an own record is a sequence fault, all else a history fault |
| `CampaignRefusals.RestOfChecksNamed` | src/empirical_platform/campaign/_reconstruction.py:99-132 | behind the path the state, the next number, the versions and the reasons decide, in this order, each with its category |
| `CampaignReconstruction.ReachableIffRestorable` | src/empirical_platform/campaign/_reconstruction.py:83-132 | which restorable states are reachable: those whose records look as appended and whose version covers the history |
| `CampaignReconstruction.AcceptsUnreachable` | src/empirical_platform/campaign/_reconstruction.py:99-132 | a state no run produces that reconstruction accepts |
| `CampaignReconstruction.SaveLoadRoundTrip` | src/empirical_platform/campaign/mapper.py:121-167 | every reachable campaign maps to its durable record and back and is reconstructed equal |
| `CampaignReconstruction.LoadSaveRoundTrip` | src/empirical_platform/campaign/mapper.py:121-167 | whatever record loads, saves back to itself |
| `SecretScanBatches.BatchTargets` | tools/secret_scan_targets.py:98-123 | batches concatenate to the targets in order, none is empty, each fits the limit or is a single target, and no other such split is shorter |
| `SecretScanBatches.GreedyLeads` | tools/secret_scan_targets.py:98-123 | the greedy split leads every other split, even one that is still behind |
| `SecretScanBatches.GreedyUnique` | tools/secret_scan_targets.py:98-123 | being greedy determines the batches |
| `SecretScanBatches.LengthIsOfText` | tools/secret_scan_targets.py:105-120 | what is compared with the limit is the length of the command line as issued |
| `Membership.Validate` | src/empirical_platform/decision_candidate/membership.py:88-124 | accepted exactly when there are records, all the manifest's own, and no two records of an instrument ever hold at one instant; a refusal names what is wrong |
| `Membership.TimelinesDecide` | src/empirical_platform/decision_candidate/membership.py:112-124 | the adjacent-pair checks of all instruments decide all pairs |
| `Membership.AtMostOneCovers` | src/empirical_platform/decision_candidate/membership.py:69-76 | at most one record of an instrument covers any cutoff |
| `Membership.UniverseAt` | src/empirical_platform/decision_candidate/historical_universe.py:25-36 | strictly sorted, exactly the instruments with an ACTIVE record that covers the cutoff |
| `Membership.UniverseIgnoresOrder` | src/empirical_platform/decision_candidate/historical_universe.py:25-36 | the universe does not depend on the order of the records |
| `Membership.CoveringRecordDecides` | src/empirical_platform/decision_candidate/historical_universe.py:30-36 | in an accepted manifest the covering record alone decides: its instrument is eligible exactly when it is ACTIVE |
| `Membership.HoldsHalfOpen` | src/empirical_platform/decision_candidate/membership.py:69-76 | a record holds from its start on, its end excluded |
| `Membership.DisjointExactly` | src/empirical_platform/decision_candidate/membership.py:112-124 | two records never hold together exactly when one ends before or as the other starts |
| `Membership.UniverseMeans` | src/empirical_platform/decision_candidate/historical_universe.py:25-36 | the universe has exactly the instruments with an ACTIVE record that has started and not ended |
| `CorporateActions.Validate` | src/empirical_platform/decision_candidate/corporate_actions.py:135-179 | accepted exactly when no two actions share instrument, instant and type and every symbol change starts from the symbol its predecessor left; stores the canonical order |
| `CorporateActions.AdjacentIsNext` | src/empirical_platform/decision_candidate/corporate_actions.py:167-179 | adjacent changes in the sorted chain are exactly the pairs of a change and its next one |
| `CorporateActions.CanonicalIgnoresOrder` | src/empirical_platform/decision_candidate/corporate_actions.py:149-165 | the same actions in any order are stored alike |
| `CorporateActions.StoredInOrder` | src/empirical_platform/decision_candidate/corporate_actions.py:149-165 | actions are stored by instrument, text of the moment, and type |
| `CorporateActions.DuplicatesMean` | src/empirical_platform/decision_candidate/corporate_actions.py:140-148 | actions are duplicates when they share instrument, instant and kind, the direction of a split being its kind |
| `SymbolHistory.SymbolAt` | src/empirical_platform/decision_candidate/corporate_actions.py:202-218 | the loop equals the backward walk over the sorted changes |
| `SymbolHistory.WalkAgreesWhen` | src/empirical_platform/decision_candidate/corporate_actions.py:202-218 | at one moment the walk is the forward replay exactly before the last change, or when it starts from the symbol that change left |
| `SymbolHistory.WalkIsHistory` | src/empirical_platform/decision_candidate/corporate_actions.py:202-218 | at every moment exactly when it starts from that symbol |
| `SymbolHistory.SymbolHeld` | src/empirical_platform/decision_candidate/corporate_actions.py:202-218 | from a change on, its own moment included, and until the next, its new symbol is returned; before the first, the old one |
| `SplitFactors.SplitAdjustmentFactorAt` | src/empirical_platform/decision_candidate/corporate_actions.py:221-233 | the loop returns the product of the price ratios of the splits not yet in effect |
| `SplitFactors.VolumeAdjustmentFactorAt` | src/empirical_platform/decision_candidate/corporate_actions.py:236-245 | the same for volume |
| `SplitFactors.FactorsInverse` | src/empirical_platform/decision_candidate/corporate_actions.py:236-245 | the two factors are positive and exact inverses at every timestamp |
| `SplitFactors.FactorsMultiply` | src/empirical_platform/decision_candidate/corporate_actions.py:221-233 | factors multiply across disjoint time ranges |
| `SplitFactors.FactorsIgnoreOrder` | src/empirical_platform/decision_candidate/corporate_actions.py:221-245 | neither factor depends on the order of the actions |
| `SplitFactors.FactorNext` | src/empirical_platform/decision_candidate/corporate_actions.py:221-245 | an action counts exactly when it is a split of the instrument after the instant: prices times old over new shares, volumes the other way round |
| `SplitFactors.SingleSplit` | src/empirical_platform/decision_candidate/corporate_actions.py:221-245 | a forward split not yet in effect lowers prices and raises volumes, a reverse split the opposite |
| `SplitAdjustment.HalfEvenIs` | src/empirical_platform/decision_candidate/historical_import.py:360-363 | rounding gives the one nearest integer, ties to even, and nothing else |
| `SplitAdjustment.QuantizeMonotone` | src/empirical_platform/decision_candidate/historical_import.py:360-363 | rounding to the price quantum is monotone |
| `SplitAdjustment.AdjustableExactly` | src/empirical_platform/decision_candidate/historical_import.py:354-369 | an adjusted bar is constructible exactly when the low does not round to zero |
| `SplitAdjustment.AdjustedNear` | src/empirical_platform/decision_candidate/historical_import.py:354-369 | it keeps its timestamp and its price order, each price within half a quantum of the exact one |
| `SplitAdjustment.SharesNear` | src/empirical_platform/decision_candidate/historical_import.py:364-368 | the volume is within half a share of the exact one, ties up |
| `SplitAdjustment.AdjustOneExactly` | src/empirical_platform/decision_candidate/historical_import.py:344-369 | a valid bar adjusts exactly when its price factor is one or its low times the factor exceeds half a quantum |
| `SplitAdjustment.AdjustSeries` | src/empirical_platform/decision_candidate/historical_import.py:344-373 | the loop over the bars: all adjusted in place order, or refused exactly when the low of some valid bar rounds to zero under the factor at its moment; a factor of one leaves the bar untouched |
| `SplitAdjustment.UntouchedAfterTheLast` | src/empirical_platform/decision_candidate/historical_import.py:346-351 | from the last split on a bar is left as it is |
| `SplitAdjustment.DeriveSplitAdjusted` | src/empirical_platform/decision_candidate/historical_import.py:309-376 | on a valid dataset succeeds exactly when every action concerns an imported instrument, every series is known and every low survives the factor at its moment; returns every series adjusted, in instrument order; a refusal names what is wrong |
| `SplitAdjustment.DerivedIsValid` | src/empirical_platform/decision_candidate/historical_import.py:339-376 | an adjusted dataset is again one the backtest accepts, on the same timestamp grid |
| `SplitAdjustment.AdjustedByFactors` | src/empirical_platform/decision_candidate/historical_import.py:344-369 | an adjusted bar is near the raw one times the two factors at its moment, prices to half a quantum, volume to half a share |
| `SplitAdjustment.DerivedInOrder` | src/empirical_platform/decision_candidate/historical_import.py:374-376 | the derived series are listed by ascending instrument, one for each raw one |
| `HistoricalEvidence.ResolveSymbols` | src/empirical_platform/decision_candidate/historical_portfolio_evidence.py:140-157 | the loop returns the sorted distinct symbols of the known instruments |
| `HistoricalEvidence.ResolvedExactly` | src/empirical_platform/decision_candidate/historical_portfolio_evidence.py:140-157 | exactly the symbols of instruments the master knows |
| `HistoricalEvidence.ResolvedAscending` | src/empirical_platform/decision_candidate/historical_portfolio_evidence.py:140-157 | ascending, each once |
| `HistoricalEvidence.ScanWindows` | src/empirical_platform/decision_candidate/historical_portfolio_evidence.py:342-360 | the loop over windows: the union of evaluated symbols and the first eligible set that covers the request |
| `HistoricalEvidence.EvaluateCompatibility` | src/empirical_platform/decision_candidate/historical_portfolio_evidence.py:160-376 | the ordered checks equal `Evaluated` |
| `HistoricalEvidence.RuleDecides` | src/empirical_platform/decision_candidate/historical_portfolio_evidence.py:160-376 | each status holds exactly under its conditions, reasons are empty exactly when compatible, the matched window is the first eligible one, and coverage is derived exactly after the hard checks |
| `HistoricalEvidence.AgesIntoStale` | src/empirical_platform/decision_candidate/historical_portfolio_evidence.py:308-317 | compatible evidence stays compatible until ninety days after its coverage and then is stale |
| `HistoricalEvidence.SmallerRequestStays` | src/empirical_platform/decision_candidate/historical_portfolio_evidence.py:337-376 | asking for fewer symbols keeps a compatible study compatible |
| `EvidenceReasons.MismatchesNamed` | src/empirical_platform/decision_candidate/historical_portfolio_evidence.py:186-245 | every policy field that disagrees is named once, in the order of the checks, and nothing else |
| `EvidenceReasons.HardReasons` | src/empirical_platform/decision_candidate/historical_portfolio_evidence.py:188-292 | which reason stands before coverage is derived |
| `EvidenceReasons.CalendarReasons` | src/empirical_platform/decision_candidate/historical_portfolio_evidence.py:293-331 | FUTURE exactly when some window ends behind the session, STALE exactly when every window ended more than ninety days before it |
| `EvidenceReasons.UniverseReasons` | src/empirical_platform/decision_candidate/historical_portfolio_evidence.py:331-376 | an empty request, the symbols no window evaluated, or no window in which all were eligible |
| `StableSorting.SortTwice` | src/empirical_platform/decision_candidate/historical_portfolio_evidence.py:538-549 | a stable sort by one key followed by a stable sort by another is one stable sort by both |
| `EvidenceSearch.FindCompatibleEvidence` | src/empirical_platform/decision_candidate/historical_portfolio_evidence.py:443-562 | the search equals `Found` |
| `EvidenceSearch.PartIsSorted` | src/empirical_platform/decision_candidate/historical_portfolio_evidence.py:538-549 | the two sorts order each part by coverage end descending, then identity ascending |
| `EvidenceSearch.OneSummaryPerCandidate` | src/empirical_platform/decision_candidate/historical_portfolio_evidence.py:478-525 | one summary per candidate, only the selected flag aside |
| `EvidenceSearch.FoundIsRanked` | src/empirical_platform/decision_candidate/historical_portfolio_evidence.py:527-562 | compatible summaries first, each part in order, and the first summary alone is selected, exactly when it is compatible |
| `EvidenceSearch.FoundInOrder` | src/empirical_platform/decision_candidate/historical_portfolio_evidence.py:527-562 | compatible first; within each part later coverage first, then the lower identity |
| `EvidenceSearch.SelectedIsBest` | src/empirical_platform/decision_candidate/historical_portfolio_evidence.py:552-562 | one is selected exactly when some candidate is compatible, and it has the latest coverage |
| `EvidenceSearch.FoundComeFrom` | src/empirical_platform/decision_candidate/historical_portfolio_evidence.py:494-525 | no attached report belongs to another study |
| `EvidenceSearch.ReportAttached` | src/empirical_platform/decision_candidate/historical_portfolio_evidence.py:494-525 | the report filed under a study is attached exactly when it was derived from that study |
| `EvidenceSearch.SearchIgnoresOrder` | src/empirical_platform/decision_candidate/historical_portfolio_evidence.py:527-562 | the order of the candidates does not matter when an identity tells the study |

## Left out

- Identifiers, symbols, names and instants are numbers: only their equality and order are used.
- Decimal context rounding: backtest amounts and split factors are exact reals, so a quotient such as 1/3 times 3 is 1. Quantize, half-even, half-up and all integer money arithmetic are explicit.
- Type checks, non-blank checks outside Campaign and M084, and timezone checks other than those of ledger events and of the ledger's and its views' moments: single-constructor checks.
- The cited position plan, note, runtime identity, limitation texts and banners of the ledger views: carried or presented, never computed with.
- `_render_exact`, and the report-level wrappers of the ratio view: presentation.
- `int()` on money texts accepts further numeral forms (underscores, blanks, other scripts); the parser model reads plain digits, which is all the printer produces.
- Strategy evaluation, scan, trade plan and position plan of the backtest: any function of the bars observed so far; runtime identities never reach a trade. The total of the risk multiples is a sum of modelled ones; averages, win rate and profit factor are quotients of totals.
- The risk-check, configuration and context tables of M084: a row operation carries whether its foreign keys are satisfied. TRUNCATE, DROP, disabled triggers, superuser steps and read-committed races are outside the serial row operations.
- The pattern of campaign identifiers also matches digits of other scripts and a trailing line break; the model reads four ASCII digits.
- Command discovery, subprocesses and git in the secret-scan tool: the length of the command prefix is a parameter.
- SHA-256, canonical JSON and CSV parsing: bytes and library code.
- The summary of a historical study keeps study, evaluation and report instead of the single columns copied from them; reasons are kinds, not sentences.
- All other milestones: receipts, watermarks, research sessions and briefs, file audits, and the remaining migrations.
- Backtest.BuildRun: an exception is one outcome, `None`; which check raised first is not modelled.
- PositionState.DerivePositionState: the open notional is the exact product; the source prints it after rounding to the 28 digits of the default decimal context.
- RoundTrip.ReportFromKnownEvidence: the cited position plan an entry repeats is not carried.
- SplitFactors.FactorsInverse: over exact reals; the source's decimal quotients are rounded to 28 digits.
- SplitFactors.FactorsMultiply: over exact reals; the source's decimal products are rounded to 28 digits.
- SplitFactors.FactorsIgnoreOrder: over exact reals; rounded decimal products could differ in the last digit with the order.
- SplitAdjustment.DeriveSplitAdjusted: the factors it multiplies by are exact reals, not rounded decimals, and the snapshot's hashes and metadata are not carried.
