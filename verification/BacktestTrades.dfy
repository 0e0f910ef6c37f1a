/** What the trades of a finished run say: where each one comes from, and what the run's totals add up to. */
module BacktestTrades {
  import opened Wrappers
  import opened Sorting
  import opened TradeSimulation
  import opened Backtest

  // ----- provenance -----

  /** `t` was decided at bar `c` of series `f` and simulated on the `horizon` bars behind it. Its scan and candidate
      references count the cutoffs and the series before it. */
  ghost predicate TradeAt(cfg: Config, series: seq<Series>, t: Trade, c: nat, f: nat) {
    && cfg.window <= c && cfg.horizon >= 1 && f < |series| && c + 1 + cfg.horizon <= |series[f].bars|
    && t.source.instrument == series[f].instrument && t.source.cutoff == series[f].bars[c].timestamp
    && t.source.scan == c - cfg.window + 1 && t.source.candidate == (c - cfg.window) * |series| + f + 1
    && t == Simulated(t.source, t.sizing, cfg.costs, series[f].bars[c + 1..c + 1 + cfg.horizon])
  }

  ghost predicate FromCutoff(cfg: Config, strategy: Strategy, series: seq<Series>, t: Trade, end: nat) {
    exists c: nat, f: nat :: c < end && TradeAt(cfg, series, t, c, f) && DecidedAt(strategy, series, t, c, f)
  }

  /** The decision behind `t`: on the bars up to bar `c`, the scan ranked its instrument with this rank and score and
      the plan for series `f` came to this position. */
  ghost predicate DecidedAt(strategy: Strategy, series: seq<Series>, t: Trade, c: nat, f: nat) {
    var windows := Truncate(series, c + 1);
    match strategy.scan(windows)
    case None => false
    case Some(ranked) =>
      && strategy.plan(windows, f) == Some(ApprovedPosition(t.sizing))
      && 1 <= t.source.rank <= |ranked| && Names(ranked[t.source.rank - 1], windows, t.source.instrument)
      && ranked[t.source.rank - 1].score == t.source.score
      && forall j :: 0 <= j < t.source.rank - 1 ==> !Names(ranked[j], windows, t.source.instrument)
  }

  /** One trade per approved position, one position plan per approved trade plan, at most 9999 of each. */
  predicate CountersAgree(st: Progress) {
    && |st.trades| == st.approvedPositionPlans <= st.approvedTradePlans == st.positionPlans <= st.tradePlans
    && st.tradePlans <= MAX_SEQUENCE
  }

  /** Trades are numbered without gaps and come from cutoffs before `end`. */
  ghost predicate Sourced(cfg: Config, strategy: Strategy, series: seq<Series>, trades: seq<Trade>, end: nat) {
    forall i :: 0 <= i < |trades| ==>
      trades[i].source.sequence == i + 1 && FromCutoff(cfg, strategy, series, trades[i], end)
  }

  /** Trades carry ever larger plan references, up to the counters. */
  predicate PlansRise(trades: seq<Trade>, tradePlans: nat, positionPlans: nat) {
    && (forall i :: 0 <= i < |trades| ==>
          trades[i].source.tradePlan <= tradePlans && trades[i].source.positionPlan <= positionPlans)
    && (forall i, j :: 0 <= i < j < |trades| ==>
          && trades[i].source.tradePlan < trades[j].source.tradePlan
          && trades[i].source.positionPlan < trades[j].source.positionPlan)
  }

  /** What holds after every ranked opportunity. */
  ghost predicate Accounted(cfg: Config, strategy: Strategy, series: seq<Series>, st: Progress, end: nat) {
    && CountersAgree(st) && Sourced(cfg, strategy, series, st.trades, end)
    && PlansRise(st.trades, st.tradePlans, st.positionPlans)
  }

  predicate DistinctInstruments(series: seq<Series>) {
    forall i, j :: 0 <= i < j < |series| ==> series[i].instrument != series[j].instrument
  }

  lemma {:induction false} FindsItself(series: seq<Series>, i: nat)
    requires DistinctInstruments(series) && i < |series|
    ensures FindSeries(series, series[i].instrument) == i
  {
    if i == 0 {
    } else {
      FindsItself(series[1..], i - 1);
    }
  }

  /** What is fixed while cutoff `at` is processed was observed up to bar `at.index` only. */
  ghost predicate Observed(cfg: Config, strategy: Strategy, series: seq<Series>, at: Cutoff) {
    && at.windows == Truncate(series, at.index + 1) && strategy.scan(at.windows) == Some(at.ranked)
    && cfg.window <= at.index
    && at.firstCandidate == (at.index - cfg.window) * |series|
  }

  lemma OwnHorizon(cfg: Config, series: seq<Series>, index: nat, f: nat)
    requires Long(series, index + 1 + cfg.horizon) && DistinctInstruments(series) && f < |series|
    ensures |series[f].bars| >= index + 1 + cfg.horizon
    ensures Horizon(cfg, series, index, series[f].instrument)
         == Some(series[f].bars[index + 1..index + 1 + cfg.horizon])
  {
    assert series[f] in series;
    FindsItself(series, f);
  }

  function RankAt(at: Cutoff, f: nat): nat
    requires f < |at.windows|
  {
    FindRank(at.ranked, at.windows, at.windows[f].instrument)
  }

  function HorizonAt(cfg: Config, series: seq<Series>, index: nat, f: nat): seq<Bar>
    requires f < |series| && |series[f].bars| >= index + 1 + cfg.horizon
  {
    series[f].bars[index + 1..index + 1 + cfg.horizon]
  }

  lemma WindowEnds(series: seq<Series>, index: nat, f: nat)
    requires Long(series, index + 1) && f < |series|
    ensures var w := Truncate(series, index + 1)[f];
            && |series[f].bars| > index && w.instrument == series[f].instrument
            && |w.bars| == index + 1 && w.bars[index] == series[f].bars[index]
  {
  }

  lemma SimulatedAt(cfg: Config, series: seq<Series>, source: Provenance, sizing: Sizing, bars: seq<Bar>, c: nat,
                    f: nat)
    requires cfg.window <= c && cfg.horizon >= 1 && f < |series| && c + 1 + cfg.horizon <= |series[f].bars|
    requires source.instrument == series[f].instrument && source.cutoff == series[f].bars[c].timestamp
    requires source.scan == c - cfg.window + 1 && source.candidate == (c - cfg.window) * |series| + f + 1
    requires bars == HorizonAt(cfg, series, c, f)
    ensures var t := Simulated(source, sizing, cfg.costs, bars);
            TradeAt(cfg, series, t, c, f) && t.source == source && t.sizing == sizing
  {
  }

  lemma SimulatedDecided(strategy: Strategy, series: seq<Series>, at: Cutoff, st: Progress, t: Trade, f: nat)
    requires at.windows == Truncate(series, at.index + 1) && strategy.scan(at.windows) == Some(at.ranked)
    requires f < |at.windows| && at.windows[f].bars != [] && RankAt(at, f) < |at.ranked|
    requires t.source == SourceOf(at, st, f, RankAt(at, f))
    requires strategy.plan(at.windows, f) == Some(ApprovedPosition(t.sizing))
    ensures DecidedAt(strategy, series, t, at.index, f)
  {
  }

  lemma NewTradeUnfolds(cfg: Config, series: seq<Series>, at: Cutoff, st: Progress, f: nat, sizing: Sizing, t: Trade)
    requires Long(series, at.index + 1 + cfg.horizon) && cfg.horizon >= 1
    requires NewTrade(cfg, series, at, st, f, sizing) == Some(t)
    ensures f < |at.windows| && at.windows[f].bars != [] && RankAt(at, f) < |at.ranked|
    ensures Horizon(cfg, series, at.index, at.windows[f].instrument).Some?
    ensures t == Simulated(SourceOf(at, st, f, RankAt(at, f)), sizing, cfg.costs,
                           Horizon(cfg, series, at.index, at.windows[f].instrument).value)
  {
  }

  /** The parts a new trade is made of. */
  lemma NewTradeParts(cfg: Config, series: seq<Series>, at: Cutoff, st: Progress, f: nat, sizing: Sizing, t: Trade)
    requires Long(series, at.index + 1 + cfg.horizon) && cfg.horizon >= 1 && DistinctInstruments(series)
    requires at.windows == Truncate(series, at.index + 1) && NewTrade(cfg, series, at, st, f, sizing) == Some(t)
    ensures f < |at.windows| == |series| && |series[f].bars| >= at.index + 1 + cfg.horizon
    ensures at.windows[f].bars != [] && RankAt(at, f) < |at.ranked|
    ensures t == Simulated(SourceOf(at, st, f, RankAt(at, f)), sizing, cfg.costs,
                           HorizonAt(cfg, series, at.index, f))
  {
    NewTradeUnfolds(cfg, series, at, st, f, sizing, t);
    WindowEnds(series, at.index, f);
    OwnHorizon(cfg, series, at.index, f);
  }

  /** What a trade says of its window and of the counters. */
  lemma SourceFields(series: seq<Series>, at: Cutoff, st: Progress, f: nat, rank: nat)
    requires at.windows == Truncate(series, at.index + 1) && f < |at.windows| == |series|
    requires |series[f].bars| > at.index && at.windows[f].bars != [] && rank < |at.ranked|
    ensures var source := SourceOf(at, st, f, rank);
            && source.instrument == series[f].instrument && source.cutoff == series[f].bars[at.index].timestamp
            && source.scan == st.scans && source.candidate == at.firstCandidate + f + 1
            && source.sequence == |st.trades| + 1
            && source.tradePlan == st.tradePlans && source.positionPlan == st.positionPlans
  {
    var w := at.windows[f];
    assert w == TruncatedTo(at.index + 1)(series[f]);
    assert w.bars == series[f].bars[..at.index + 1];
  }

  lemma NewTradeAt(cfg: Config, strategy: Strategy, series: seq<Series>, at: Cutoff, st: Progress, f: nat,
                   sizing: Sizing, t: Trade)
    requires Long(series, at.index + 1 + cfg.horizon) && cfg.horizon >= 1
    requires DistinctInstruments(series) && Observed(cfg, strategy, series, at) && st.scans == at.index - cfg.window + 1
    requires NewTrade(cfg, series, at, st, f, sizing) == Some(t)
    requires strategy.plan(at.windows, f) == Some(ApprovedPosition(sizing))
    ensures TradeAt(cfg, series, t, at.index, f) && DecidedAt(strategy, series, t, at.index, f)
    ensures t.source.sequence == |st.trades| + 1
    ensures t.source.tradePlan == st.tradePlans && t.source.positionPlan == st.positionPlans
  {
    NewTradeParts(cfg, series, at, st, f, sizing, t);
    var source := SourceOf(at, st, f, RankAt(at, f));
    SourceFields(series, at, st, f, RankAt(at, f));
    SimulatedAt(cfg, series, source, sizing, HorizonAt(cfg, series, at.index, f), at.index, f);
    SimulatedDecided(strategy, series, at, st, t, f);
  }

  lemma EarlierCutoff(cfg: Config, strategy: Strategy, series: seq<Series>, st: Progress, end: nat, later: nat)
    requires Accounted(cfg, strategy, series, st, end) && end <= later
    ensures Accounted(cfg, strategy, series, st, later)
  {
    forall i | 0 <= i < |st.trades|
      ensures FromCutoff(cfg, strategy, series, st.trades[i], later)
    {
      assert FromCutoff(cfg, strategy, series, st.trades[i], end);
    }
  }

  lemma SourcedAdded(cfg: Config, strategy: Strategy, series: seq<Series>, trades: seq<Trade>, t: Trade, end: nat)
    requires Sourced(cfg, strategy, series, trades, end)
    requires t.source.sequence == |trades| + 1 && FromCutoff(cfg, strategy, series, t, end)
    ensures Sourced(cfg, strategy, series, trades + [t], end)
  {
  }

  lemma PlansRiseAdded(trades: seq<Trade>, t: Trade, tradePlans: nat, positionPlans: nat)
    requires PlansRise(trades, tradePlans, positionPlans)
    requires t.source.tradePlan == tradePlans + 1 && t.source.positionPlan == positionPlans + 1
    ensures PlansRise(trades + [t], tradePlans + 1, positionPlans + 1)
  {
  }

  /** One more trade from the current cutoff, under the next plan numbers. */
  lemma TradeAdded(cfg: Config, strategy: Strategy, series: seq<Series>, before: Progress, after: Progress, t: Trade,
                   end: nat)
    requires Accounted(cfg, strategy, series, before, end) && before.tradePlans < MAX_SEQUENCE
    requires after == Sized(before).(trades := before.trades + [t])
    requires t.source.sequence == |before.trades| + 1 && FromCutoff(cfg, strategy, series, t, end)
    requires t.source.tradePlan == after.tradePlans && t.source.positionPlan == after.positionPlans
    ensures Accounted(cfg, strategy, series, after, end)
  {
    SourcedAdded(cfg, strategy, series, before.trades, t, end);
    PlansRiseAdded(before.trades, t, before.tradePlans, before.positionPlans);
  }

  /** A rejected plan or position moves counters only. */
  lemma OnlyCounted(cfg: Config, strategy: Strategy, series: seq<Series>, before: Progress, after: Progress, end: nat)
    requires Accounted(cfg, strategy, series, before, end) && before.tradePlans < MAX_SEQUENCE
    requires after == Planned(before) || after == Positioned(before)
    ensures Accounted(cfg, strategy, series, after, end)
  {
  }

  /** How a ranked opportunity ends: counters only, or one more trade. */
  lemma AdvanceAccounted(cfg: Config, strategy: Strategy, series: seq<Series>, st: Progress,
                         verdict: Option<Verdict>, trade: Option<Trade>, end: nat)
    requires Accounted(cfg, strategy, series, st, end)
    requires trade.Some? ==>
               && trade.value.source.sequence == |st.trades| + 1 && FromCutoff(cfg, strategy, series, trade.value, end)
               && trade.value.source.tradePlan == st.tradePlans + 1
               && trade.value.source.positionPlan == st.positionPlans + 1
    ensures var r := Advance(st, verdict, trade);
            r.Some? ==> Accounted(cfg, strategy, series, r.value, end) && r.value.scans == st.scans
                        && r.value.candidates == st.candidates
  {
    var r := Advance(st, verdict, trade);
    if r.Some? {
      match verdict
      case Some(RejectedPlan) => OnlyCounted(cfg, strategy, series, st, r.value, end);
      case Some(RejectedPosition) => OnlyCounted(cfg, strategy, series, st, r.value, end);
      case Some(ApprovedPosition(_)) => TradeAdded(cfg, strategy, series, st, r.value, trade.value, end);
    }
  }

  /** The state in the middle of cutoff `at`. */
  ghost predicate Within(cfg: Config, strategy: Strategy, series: seq<Series>, at: Cutoff, candidates: nat,
                         st: Progress) {
    && Observed(cfg, strategy, series, at) && st.scans == at.index - cfg.window + 1 && st.candidates == candidates
    && Accounted(cfg, strategy, series, st, at.index + 1)
  }

  lemma TradeForAt(cfg: Config, strategy: Strategy, series: seq<Series>, at: Cutoff, st: Progress, candidate: nat,
                   verdict: Option<Verdict>)
    requires Long(series, at.index + 1 + cfg.horizon) && cfg.horizon >= 1
    requires DistinctInstruments(series) && Observed(cfg, strategy, series, at) && st.scans == at.index - cfg.window + 1
    requires verdict == strategy.plan(at.windows, candidate)
    ensures var trade := TradeFor(cfg, series, at, st, candidate, verdict);
            trade.Some? ==>
              && trade.value.source.sequence == |st.trades| + 1
              && FromCutoff(cfg, strategy, series, trade.value, at.index + 1)
              && trade.value.source.tradePlan == st.tradePlans + 1
              && trade.value.source.positionPlan == st.positionPlans + 1
  {
    var trade := TradeFor(cfg, series, at, st, candidate, verdict);
    if trade.Some? {
      NewTradeAt(cfg, strategy, series, at, Sized(st), candidate, verdict.value.sizing, trade.value);
    }
  }

  lemma StepAccounted(cfg: Config, strategy: Strategy, series: seq<Series>, at: Cutoff, st: Progress, k: nat)
    requires Long(series, at.index + 1 + cfg.horizon) && cfg.horizon >= 1 && k < |at.ranked|
    requires DistinctInstruments(series) && Within(cfg, strategy, series, at, st.candidates, st)
    ensures var r := StepRanked(cfg, strategy, series, at, st, k);
            r.Some? ==> Within(cfg, strategy, series, at, st.candidates, r.value)
  {
    var candidate := at.ranked[k].candidate;
    var verdict := strategy.plan(at.windows, candidate);
    TradeForAt(cfg, strategy, series, at, st, candidate, verdict);
    var trade := TradeFor(cfg, series, at, st, candidate, verdict);
    AdvanceAccounted(cfg, strategy, series, st, verdict, trade, at.index + 1);
  }

  /** What every ranked opportunity keeps, the whole cutoff keeps. */
  lemma {:induction false} FoldKeeps(cfg: Config, strategy: Strategy, series: seq<Series>, at: Cutoff, st: Progress,
                                     n: nat, holds: Progress -> bool)
    requires Long(series, at.index + 1 + cfg.horizon) && cfg.horizon >= 1 && n <= |at.ranked| && holds(st)
    requires forall p: Progress, k: nat :: k < |at.ranked| && holds(p) ==>
               (var r := StepRanked(cfg, strategy, series, at, p, k); r.Some? ==> holds(r.value))
    ensures var r := FoldRanked(cfg, strategy, series, at, st, n); r.Some? ==> holds(r.value)
  {
    if n == 0 {
    } else {
      FoldKeeps(cfg, strategy, series, at, st, n - 1, holds);
    }
  }

  lemma FoldAccounted(cfg: Config, strategy: Strategy, series: seq<Series>, at: Cutoff, st: Progress)
    requires Long(series, at.index + 1 + cfg.horizon) && cfg.horizon >= 1
    requires DistinctInstruments(series) && Within(cfg, strategy, series, at, st.candidates, st)
    ensures var r := FoldRanked(cfg, strategy, series, at, st, |at.ranked|);
            r.Some? ==> Within(cfg, strategy, series, at, st.candidates, r.value)
  {
    var holds := (p: Progress) => Within(cfg, strategy, series, at, st.candidates, p);
    forall p: Progress, k: nat | k < |at.ranked| && holds(p)
      ensures var r := StepRanked(cfg, strategy, series, at, p, k); r.Some? ==> holds(r.value)
    {
      StepAccounted(cfg, strategy, series, at, p, k);
    }
    FoldKeeps(cfg, strategy, series, at, st, |at.ranked|, holds);
  }

  /** One scan and one candidate per series for every cutoff so far. */
  predicate Numbered(cfg: Config, series: seq<Series>, st: Progress, end: nat)
    requires cfg.window <= end
  {
    st.scans == end - cfg.window && st.candidates == (end - cfg.window) * |series|
  }

  /** The counters at the start of a cutoff, once its scan and candidates are numbered. */
  lemma ScanWithin(cfg: Config, strategy: Strategy, series: seq<Series>, st: Progress, index: nat, ranked: seq<Ranked>)
    requires cfg.window <= index && Numbered(cfg, series, st, index) && Accounted(cfg, strategy, series, st, index)
    requires strategy.scan(Truncate(series, index + 1)) == Some(ranked)
    ensures var scanned := st.(candidates := st.candidates + |series|, scans := st.scans + 1);
            Within(cfg, strategy, series, Cutoff(index, Truncate(series, index + 1), ranked, st.candidates),
                   scanned.candidates, scanned)
  {
    var scanned := st.(candidates := st.candidates + |series|, scans := st.scans + 1);
    EarlierCutoff(cfg, strategy, series, scanned, index, index + 1);
  }

  /** What is known between two cutoffs. */
  ghost predicate Between(cfg: Config, strategy: Strategy, series: seq<Series>, st: Progress, end: nat) {
    cfg.window <= end && Accounted(cfg, strategy, series, st, end) && Numbered(cfg, series, st, end)
  }

  lemma CutoffDone(cfg: Config, strategy: Strategy, series: seq<Series>, at: Cutoff, st: Progress)
    requires Within(cfg, strategy, series, at, at.firstCandidate + |series|, st)
    ensures Between(cfg, strategy, series, st, at.index + 1)
  {
  }

  lemma CutoffAccounted(cfg: Config, strategy: Strategy, series: seq<Series>, st: Progress, index: nat)
    requires Long(series, index + 1 + cfg.horizon) && cfg.horizon >= 1
    requires DistinctInstruments(series) && Between(cfg, strategy, series, st, index)
    ensures var r := StepCutoff(cfg, strategy, series, st, index);
            r.Some? ==> Between(cfg, strategy, series, r.value, index + 1)
  {
    var windows := Truncate(series, index + 1);
    match strategy.scan(windows)
    case None =>
    case Some(ranked) =>
      var scanned := st.(candidates := st.candidates + |series|, scans := st.scans + 1);
      var at := Cutoff(index, windows, ranked, st.candidates);
      ScanWithin(cfg, strategy, series, st, index, ranked);
      FoldAccounted(cfg, strategy, series, at, scanned);
      match FoldRanked(cfg, strategy, series, at, scanned, |ranked|)
      case None =>
      case Some(done) => CutoffDone(cfg, strategy, series, at, done);
  }

  /** What every cutoff keeps, the whole run keeps. */
  lemma {:induction false} RunKeeps(cfg: Config, strategy: Strategy, series: seq<Series>, end: nat,
                                    holds: (Progress, nat) -> bool)
    requires Long(series, end + cfg.horizon) && cfg.horizon >= 1 && cfg.window <= end && holds(START, cfg.window)
    requires forall p: Progress, index: nat :: cfg.window <= index < end && holds(p, index) ==>
               (var r := StepCutoff(cfg, strategy, series, p, index); r.Some? ==> holds(r.value, index + 1))
    ensures var r := RunCutoffs(cfg, strategy, series, end); r.Some? ==> holds(r.value, end)
  {
    if end <= cfg.window {
    } else {
      RunKeeps(cfg, strategy, series, end - 1, holds);
    }
  }

  lemma RunAccounted(cfg: Config, strategy: Strategy, series: seq<Series>, end: nat)
    requires Long(series, end + cfg.horizon) && cfg.horizon >= 1 && cfg.window <= end && DistinctInstruments(series)
    ensures var r := RunCutoffs(cfg, strategy, series, end);
            r.Some? ==> Between(cfg, strategy, series, r.value, end)
  {
    var holds := (p: Progress, index: nat) => Between(cfg, strategy, series, p, index);
    forall p: Progress, index: nat | cfg.window <= index < end && holds(p, index)
      ensures var r := StepCutoff(cfg, strategy, series, p, index); r.Some? ==> holds(r.value, index + 1)
    {
      CutoffAccounted(cfg, strategy, series, p, index);
    }
    RunKeeps(cfg, strategy, series, end, holds);
  }

  function InstrumentOf(s: Series): Instrument {
    s.instrument
  }

  lemma OrderedDistinct(dataset: seq<Series>)
    requires DistinctInstruments(dataset)
    ensures DistinctInstruments(Ordered(dataset))
  {
    assert DistinctBy(InstrumentOf, dataset);
    SortDistinct(SeriesLeq, InstrumentOf, dataset);
    var sorted := Ordered(dataset);
    forall i, j | 0 <= i < j < |sorted|
      ensures sorted[i].instrument != sorted[j].instrument
    {
      assert InstrumentOf(sorted[i]) != InstrumentOf(sorted[j]);
    }
  }

  /** Every finished run over a valid dataset is accounted for: see `Between`. */
  lemma RunIsAccounted(cfg: Config, strategy: Strategy, dataset: seq<Series>)
    requires cfg.horizon >= 1 && ValidDataset(dataset)
    ensures var r, end := RunOf(cfg, strategy, dataset), |dataset[0].bars| - cfg.horizon;
            r.Some? ==> end > cfg.window && Between(cfg, strategy, Ordered(dataset), r.value, end)
  {
    OrderedDistinct(dataset);
    var end := |dataset[0].bars| - cfg.horizon;
    if RunOf(cfg, strategy, dataset).Some? {
      RunAccounted(cfg, strategy, Ordered(dataset), end);
    }
  }

  /** The trade enters at the open of the bar behind its cutoff and is over `horizon` bars later at the latest. */
  ghost predicate StrictlyAfter(cfg: Config, s: Series, t: Trade, c: nat) {
    && cfg.horizon >= 1 && c + cfg.horizon < |s.bars| && t.source.cutoff == s.bars[c].timestamp
    && (t.execution.Some? ==>
          var x := t.execution.value;
          && t.source.cutoff < x.entryTimestamp == s.bars[c + 1].timestamp
          && x.entryTimestamp <= x.exitTimestamp <= s.bars[c + cfg.horizon].timestamp)
  }

  lemma TradeStrictlyAfter(cfg: Config, series: seq<Series>, t: Trade, c: nat, f: nat)
    requires TradeAt(cfg, series, t, c, f)
    requires forall k, l :: 0 <= k < l < |series[f].bars| ==> series[f].bars[k].timestamp < series[f].bars[l].timestamp
    ensures StrictlyAfter(cfg, series[f], t, c)
  {
    var bars := series[f].bars[c + 1..c + 1 + cfg.horizon];
    ExitsAtFirstTouch(t.source, t.sizing, cfg.costs, bars);
    if t.execution.Some? {
      var h := t.execution.value.holdingBars;
      assert bars[h - 1] == series[f].bars[c + h] && bars[0] == series[f].bars[c + 1];
    }
  }

  /** No trade looks ahead: it was decided at the close of a bar of a series of the dataset, enters strictly later,
      and ends within its horizon. */
  lemma NoLookAhead(cfg: Config, strategy: Strategy, dataset: seq<Series>, i: nat)
    requires cfg.horizon >= 1 && ValidDataset(dataset)
    requires RunOf(cfg, strategy, dataset).Some? && i < |RunOf(cfg, strategy, dataset).value.trades|
    ensures var t := RunOf(cfg, strategy, dataset).value.trades[i];
            && t.source.sequence == i + 1
            && exists s, c: nat :: s in dataset && s.instrument == t.source.instrument && StrictlyAfter(cfg, s, t, c)
  {
    RunIsAccounted(cfg, strategy, dataset);
    var series, end := Ordered(dataset), |dataset[0].bars| - cfg.horizon;
    var t := RunOf(cfg, strategy, dataset).value.trades[i];
    assert FromCutoff(cfg, strategy, series, t, end);
    var c: nat, f: nat :| c < end && TradeAt(cfg, series, t, c, f);
    InSort(SeriesLeq, dataset, series[f]);
    TradeStrictlyAfter(cfg, series, t, c, f);
  }

  /** The exit lies between the levels, strictly inside on a time exit. */
  predicate Bounded(t: Trade) {
    && WithinLevels(t)
    && (t.outcome == TimeExit ==>
          t.execution.Some? && t.sizing.stop < t.execution.value.exitPrice < t.sizing.target)
  }

  lemma TradeBounded(cfg: Config, series: seq<Series>, t: Trade, c: nat, f: nat)
    requires TradeAt(cfg, series, t, c, f)
    requires forall k :: 0 <= k < |series[f].bars| ==> ValidBar(series[f].bars[k])
    ensures Bounded(t)
  {
    TradeBounds(t.source, t.sizing, cfg.costs, series[f].bars[c + 1..c + 1 + cfg.horizon]);
  }

  lemma CutoffBounded(cfg: Config, strategy: Strategy, series: seq<Series>, t: Trade, end: nat)
    requires FromCutoff(cfg, strategy, series, t, end) && AllBarsValid(series)
    ensures Bounded(t)
  {
    var c: nat, f: nat :| c < end && TradeAt(cfg, series, t, c, f) && DecidedAt(strategy, series, t, c, f);
    assert series[f] in series;
    TradeBounded(cfg, series, t, c, f);
  }

  ghost predicate AllBarsValid(series: seq<Series>) {
    forall s :: s in series ==> forall k :: 0 <= k < |s.bars| ==> ValidBar(s.bars[k])
  }

  lemma AccountedBounded(cfg: Config, strategy: Strategy, series: seq<Series>, st: Progress, end: nat)
    requires Accounted(cfg, strategy, series, st, end) && AllBarsValid(series)
    ensures forall t :: t in st.trades ==> Bounded(t)
  {
    forall i | 0 <= i < |st.trades|
      ensures Bounded(st.trades[i])
    {
      CutoffBounded(cfg, strategy, series, st.trades[i], end);
    }
  }

  /** Every executed trade of a run exits between its stop and its target. */
  lemma RunTradesBounded(cfg: Config, strategy: Strategy, dataset: seq<Series>)
    requires cfg.horizon >= 1 && ValidDataset(dataset) && RunOf(cfg, strategy, dataset).Some?
    ensures forall t :: t in RunOf(cfg, strategy, dataset).value.trades ==> Bounded(t)
  {
    RunIsAccounted(cfg, strategy, dataset);
    var series := Ordered(dataset);
    forall s, k | s in series && 0 <= k < |s.bars|
      ensures ValidBar(s.bars[k])
    {
      InSort(SeriesLeq, dataset, s);
    }
    AccountedBounded(cfg, strategy, series, RunOf(cfg, strategy, dataset).value, |dataset[0].bars| - cfg.horizon);
  }

  // ----- totals -----

  function Total(measure: Trade -> real, trades: seq<Trade>): real {
    if trades == [] then 0.0 else Total(measure, trades[..|trades| - 1]) + measure(trades[|trades| - 1])
  }

  predicate Won(t: Trade) {
    t.netPnl > 0.0
  }

  predicate Lost(t: Trade) {
    t.netPnl < 0.0
  }

  predicate Flat(t: Trade) {
    t.netPnl == 0.0
  }

  predicate TimedOut(t: Trade) {
    t.outcome == TimeExit
  }

  predicate NotEntered(t: Trade) {
    t.outcome == NoEntry
  }

  function Gross(t: Trade): real {
    t.grossPnl
  }

  function Net(t: Trade): real {
    t.netPnl
  }

  function Costs(t: Trade): real {
    t.costs
  }

  datatype Totals = Totals(
    simulated: nat,
    executed: nat,
    wins: nat,
    losses: nat,
    flat: nat,
    timeExits: nat,
    noEntries: nat,
    gross: real,
    net: real,
    positive: real,
    negative: real)

  function TotalsOf(trades: seq<Trade>): Totals {
    var executed := Filter(WasExecuted, trades);
    Totals(
      |trades|, |executed|, |Filter(Won, executed)|, |Filter(Lost, executed)|, |Filter(Flat, executed)|,
      |Filter(TimedOut, trades)|, |Filter(NotEntered, trades)|, Total(Gross, trades), Total(Net, trades),
      Total(Net, Filter(Won, executed)), Total(Net, Filter(Lost, executed)))
  }

  /** The result of one trade is its gross result less its costs, and nothing if it was never entered. */
  predicate Consistent(t: Trade) {
    t.netPnl == t.grossPnl - t.costs && (t.outcome == NoEntry ==> t.grossPnl == t.costs == 0.0)
  }

  lemma {:induction false} CountsReconcile(trades: seq<Trade>)
    ensures var executed := Filter(WasExecuted, trades);
            && |Filter(Won, executed)| + |Filter(Lost, executed)| + |Filter(Flat, executed)| == |executed|
            && |executed| + |Filter(NotEntered, trades)| == |trades| && |Filter(TimedOut, trades)| <= |executed|
  {
    if trades == [] {
    } else {
      var front, last := trades[..|trades| - 1], trades[|trades| - 1];
      var executed := Filter(WasExecuted, front);
      assert trades == front + [last];
      CountsReconcile(front);
      FilterNext(WasExecuted, front, last);
      FilterNext(Won, executed, last);
      FilterNext(Lost, executed, last);
      FilterNext(Flat, executed, last);
    }
  }

  lemma {:induction false} NetIsGrossLessCosts(trades: seq<Trade>)
    requires forall t :: t in trades ==> Consistent(t)
    ensures Total(Net, trades) == Total(Gross, trades) - Total(Costs, trades)
  {
    if trades == [] {
    } else {
      NetIsGrossLessCosts(trades[..|trades| - 1]);
      assert Consistent(trades[|trades| - 1]);
    }
  }

  lemma {:induction false} NetOfExecuted(trades: seq<Trade>)
    requires forall t :: t in trades ==> Consistent(t)
    ensures Total(Net, trades) == Total(Net, Filter(WasExecuted, trades))
  {
    if trades == [] {
    } else {
      var front, last := trades[..|trades| - 1], trades[|trades| - 1];
      NetOfExecuted(front);
      assert Consistent(last);
      var executed := Filter(WasExecuted, front);
      assert (executed + [last])[..|executed|] == executed;
    }
  }

  lemma {:induction false} GainsAndLosses(trades: seq<Trade>)
    ensures Total(Net, trades) == Total(Net, Filter(Won, trades)) + Total(Net, Filter(Lost, trades))
    ensures Total(Net, Filter(Lost, trades)) <= 0.0 <= Total(Net, Filter(Won, trades))
  {
    if trades == [] {
    } else {
      var front, last := trades[..|trades| - 1], trades[|trades| - 1];
      GainsAndLosses(front);
      var won, lost := Filter(Won, front), Filter(Lost, front);
      assert (won + [last])[..|won|] == won && (lost + [last])[..|lost|] == lost;
    }
  }

  lemma TotalsReconcile(trades: seq<Trade>)
    requires forall t :: t in trades ==> Consistent(t)
    ensures var r := TotalsOf(trades);
            && r.wins + r.losses + r.flat == r.executed && r.executed + r.noEntries == r.simulated == |trades|
            && r.timeExits <= r.executed && r.wins + r.losses + r.flat + r.noEntries == r.simulated
            && r.net == r.gross - Total(Costs, trades)
            && r.net == r.positive + r.negative && r.negative <= 0.0 <= r.positive
  {
    CountsReconcile(trades);
    NetIsGrossLessCosts(trades);
    NetOfExecuted(trades);
    GainsAndLosses(Filter(WasExecuted, trades));
  }

  lemma SimulatedConsistent(cfg: Config, strategy: Strategy, series: seq<Series>, t: Trade, end: nat)
    requires FromCutoff(cfg, strategy, series, t, end)
    ensures Consistent(t)
  {
  }

  lemma AccountedConsistent(cfg: Config, strategy: Strategy, series: seq<Series>, st: Progress, end: nat)
    requires Accounted(cfg, strategy, series, st, end)
    ensures forall t :: t in st.trades ==> Consistent(t)
  {
    forall t | t in st.trades
      ensures Consistent(t)
    {
      var i :| 0 <= i < |st.trades| && st.trades[i] == t;
      SimulatedConsistent(cfg, strategy, series, st.trades[i], end);
    }
  }

  /** The totals of every finished run over a valid dataset reconcile. */
  lemma RunReconciles(cfg: Config, strategy: Strategy, dataset: seq<Series>)
    requires cfg.horizon >= 1 && ValidDataset(dataset) && RunOf(cfg, strategy, dataset).Some?
    ensures var run := RunOf(cfg, strategy, dataset).value;
            var r := TotalsOf(run.trades);
            && r.wins + r.losses + r.flat + r.noEntries == r.simulated == run.approvedPositionPlans
            && r.net == r.gross - Total(Costs, run.trades) && r.net == r.positive + r.negative
  {
    var run := RunOf(cfg, strategy, dataset).value;
    RunIsAccounted(cfg, strategy, dataset);
    AccountedConsistent(cfg, strategy, Ordered(dataset), run, |dataset[0].bars| - cfg.horizon);
    TotalsReconcile(run.trades);
  }

  // ----- what the totals count -----

  lemma {:induction false} FilterBoth(p: Trade -> bool, q: Trade -> bool, both: Trade -> bool, trades: seq<Trade>)
    requires forall t :: both(t) <==> p(t) && q(t)
    ensures Filter(p, Filter(q, trades)) == Filter(both, trades)
  {
    if trades == [] {
    } else {
      var front, last := trades[..|trades| - 1], trades[|trades| - 1];
      assert trades == front + [last];
      FilterBoth(p, q, both, front);
      FilterNext(q, front, last);
      FilterNext(p, Filter(q, front), last);
      FilterNext(both, front, last);
    }
  }

  lemma CountBoth(p: Trade -> bool, both: Trade -> bool, trades: seq<Trade>)
    requires forall t :: both(t) <==> p(t) && WasExecuted(t)
    ensures |Filter(p, Filter(WasExecuted, trades))| == |Places(both, trades)|
  {
    FilterBoth(p, WasExecuted, both, trades);
    FilterCount(both, trades);
  }

  predicate WonTrade(t: Trade) {
    t.outcome != NoEntry && t.netPnl > 0.0
  }

  predicate LostTrade(t: Trade) {
    t.outcome != NoEntry && t.netPnl < 0.0
  }

  predicate FlatTrade(t: Trade) {
    t.outcome != NoEntry && t.netPnl == 0.0
  }

  /** Wins, losses and flat results are counted over the executed trades, by the sign of the net result. */
  lemma TotalsCount(trades: seq<Trade>)
    ensures var r := TotalsOf(trades);
            && r.simulated == |trades|
            && r.executed == |set i | 0 <= i < |trades| && trades[i].outcome != NoEntry|
            && r.wins == |set i | 0 <= i < |trades| && trades[i].outcome != NoEntry && trades[i].netPnl > 0.0|
            && r.losses == |set i | 0 <= i < |trades| && trades[i].outcome != NoEntry && trades[i].netPnl < 0.0|
            && r.flat == |set i | 0 <= i < |trades| && trades[i].outcome != NoEntry && trades[i].netPnl == 0.0|
            && r.timeExits == |set i | 0 <= i < |trades| && trades[i].outcome == TimeExit|
            && r.noEntries == |set i | 0 <= i < |trades| && trades[i].outcome == NoEntry|
  {
    ExecutedCount(trades);
    WonCount(trades);
    LostCount(trades);
    FlatCount(trades);
    OutcomeCounts(trades);
  }

  lemma ExecutedCount(trades: seq<Trade>)
    ensures |Filter(WasExecuted, trades)| == |set i | 0 <= i < |trades| && trades[i].outcome != NoEntry|
  {
    FilterCount(WasExecuted, trades);
    assert Places(WasExecuted, trades) == set i | 0 <= i < |trades| && trades[i].outcome != NoEntry;
  }

  lemma WonCount(trades: seq<Trade>)
    ensures |Filter(Won, Filter(WasExecuted, trades))|
         == |set i | 0 <= i < |trades| && trades[i].outcome != NoEntry && trades[i].netPnl > 0.0|
  {
    CountBoth(Won, WonTrade, trades);
    assert Places(WonTrade, trades)
        == set i | 0 <= i < |trades| && trades[i].outcome != NoEntry && trades[i].netPnl > 0.0;
  }

  lemma LostCount(trades: seq<Trade>)
    ensures |Filter(Lost, Filter(WasExecuted, trades))|
         == |set i | 0 <= i < |trades| && trades[i].outcome != NoEntry && trades[i].netPnl < 0.0|
  {
    CountBoth(Lost, LostTrade, trades);
    assert Places(LostTrade, trades)
        == set i | 0 <= i < |trades| && trades[i].outcome != NoEntry && trades[i].netPnl < 0.0;
  }

  lemma FlatCount(trades: seq<Trade>)
    ensures |Filter(Flat, Filter(WasExecuted, trades))|
         == |set i | 0 <= i < |trades| && trades[i].outcome != NoEntry && trades[i].netPnl == 0.0|
  {
    CountBoth(Flat, FlatTrade, trades);
    assert Places(FlatTrade, trades)
        == set i | 0 <= i < |trades| && trades[i].outcome != NoEntry && trades[i].netPnl == 0.0;
  }

  lemma OutcomeCounts(trades: seq<Trade>)
    ensures |Filter(TimedOut, trades)| == |set i | 0 <= i < |trades| && trades[i].outcome == TimeExit|
    ensures |Filter(NotEntered, trades)| == |set i | 0 <= i < |trades| && trades[i].outcome == NoEntry|
  {
    FilterCount(TimedOut, trades);
    FilterCount(NotEntered, trades);
    assert Places(TimedOut, trades) == set i | 0 <= i < |trades| && trades[i].outcome == TimeExit;
    assert Places(NotEntered, trades) == set i | 0 <= i < |trades| && trades[i].outcome == NoEntry;
  }

  lemma {:induction false} SignOfTotal(trades: seq<Trade>)
    ensures (forall t :: t in trades ==> t.netPnl > 0.0) ==> (Total(Net, trades) > 0.0 <==> trades != [])
    ensures (forall t :: t in trades ==> t.netPnl < 0.0) ==> (Total(Net, trades) < 0.0 <==> trades != [])
  {
    if trades == [] {
    } else {
      var front, last := trades[..|trades| - 1], trades[|trades| - 1];
      assert trades == front + [last] && last in trades;
      assert forall t :: t in front ==> t in trades;
      SignOfTotal(front);
      assert Total(Net, trades) == Total(Net, front) + last.netPnl;
    }
  }

  /** There is something won exactly when some trade won, and something lost exactly when some trade lost. */
  lemma WinsAndLosses(trades: seq<Trade>)
    ensures var r := TotalsOf(trades);
            (r.wins > 0 <==> r.positive > 0.0) && (r.losses > 0 <==> r.negative < 0.0)
  {
    SignOfTotal(Filter(Won, Filter(WasExecuted, trades)));
    SignOfTotal(Filter(Lost, Filter(WasExecuted, trades)));
  }
}
