/** The historical backtest: every cutoff is planned from the bars up to it and simulated on the bars after it.

    What the strategy, the scan and the two planners decide is a parameter: any function of the bars observed up to
    the cutoff. `None` stands for an exception. */
module Backtest {
  import opened Wrappers
  import opened Sorting
  import opened TradeSimulation

  datatype Series = Series(instrument: Instrument, bars: seq<Bar>)

  /** A dataset the constructors admit: distinct instruments on one strictly increasing grid of valid bars. */
  ghost predicate ValidDataset(series: seq<Series>) {
    && series != []
    && (forall i, j :: 0 <= i < j < |series| ==> series[i].instrument != series[j].instrument)
    && (forall s :: s in series ==>
          && |s.bars| == |series[0].bars| >= 2
          && (forall k :: 0 <= k < |s.bars| ==>
                ValidBar(s.bars[k]) && s.bars[k].timestamp == series[0].bars[k].timestamp)
          && (forall k, l :: 0 <= k < l < |s.bars| ==> s.bars[k].timestamp < s.bars[l].timestamp))
  }

  datatype Config = Config(window: nat, horizon: nat, costs: CostModel)

  /** One ranked opportunity: which candidate of the scan it is, and its score. */
  datatype Ranked = Ranked(candidate: nat, score: real)

  datatype Verdict = RejectedPlan | RejectedPosition | ApprovedPosition(sizing: Sizing)

  datatype Strategy = Strategy(
    scan: seq<Series> -> Option<seq<Ranked>>,
    plan: (seq<Series>, nat) -> Option<Verdict>)

  /** Local reference numbers have four digits. */
  const MAX_SEQUENCE: nat := 9999

  datatype Progress = Progress(
    candidates: nat,
    scans: nat,
    tradePlans: nat,
    positionPlans: nat,
    approvedTradePlans: nat,
    approvedPositionPlans: nat,
    trades: seq<Trade>)

  const START := Progress(0, 0, 0, 0, 0, 0, [])

  function TruncatedTo(m: nat): Series -> Series {
    (s: Series) => s.(bars := if m <= |s.bars| then s.bars[..m] else s.bars)
  }

  /** Every series cut to its first `m` bars. */
  function Truncate(series: seq<Series>, m: nat): seq<Series> {
    Map(TruncatedTo(m), series)
  }

  /** Every series has at least `n` bars. */
  ghost predicate Long(series: seq<Series>, n: nat) {
    forall s :: s in series ==> |s.bars| >= n
  }

  /** The first series of `instrument`, or the number of series. */
  function FindSeries(series: seq<Series>, instrument: Instrument): (i: nat)
    ensures i <= |series| && (i < |series| ==> series[i].instrument == instrument)
  {
    if series == [] || series[0].instrument == instrument then 0 else 1 + FindSeries(series[1..], instrument)
  }

  predicate Names(r: Ranked, windows: seq<Series>, instrument: Instrument) {
    r.candidate < |windows| && windows[r.candidate].instrument == instrument
  }

  /** The first place of `instrument` among the ranked opportunities, or their number. */
  function FindRank(ranked: seq<Ranked>, windows: seq<Series>, instrument: Instrument): (i: nat)
    ensures i <= |ranked| && (i < |ranked| ==> Names(ranked[i], windows, instrument))
    ensures forall j :: 0 <= j < i ==> !Names(ranked[j], windows, instrument)
  {
    if ranked == [] || Names(ranked[0], windows, instrument) then 0
    else 1 + FindRank(ranked[1..], windows, instrument)
  }

  /** What is fixed while one cutoff is processed. */
  datatype Cutoff = Cutoff(index: nat, windows: seq<Series>, ranked: seq<Ranked>, firstCandidate: nat)

  /** The bars a trade of `instrument` would be simulated on. */
  function Horizon(cfg: Config, series: seq<Series>, index: nat, instrument: Instrument): Option<seq<Bar>>
    requires Long(series, index + 1 + cfg.horizon)
  {
    var found := FindSeries(series, instrument);
    if found == |series| then None
    else
      assert series[found] in series;
      Some(series[found].bars[index + 1..index + 1 + cfg.horizon])
  }

  /** The references a trade carries to the scan, candidate and plans it comes from. */
  function SourceOf(at: Cutoff, st: Progress, candidate: nat, rank: nat): Provenance
    requires candidate < |at.windows| && at.windows[candidate].bars != [] && rank < |at.ranked|
  {
    var window := at.windows[candidate].bars;
    Provenance(
      |st.trades| + 1, at.windows[candidate].instrument, window[|window| - 1].timestamp, st.scans,
      at.firstCandidate + candidate + 1, st.tradePlans, st.positionPlans, rank + 1, at.ranked[rank].score)
  }

  /** An approved position becomes a trade on the bars after the cutoff. */
  function NewTrade(cfg: Config, series: seq<Series>, at: Cutoff, st: Progress, candidate: nat, sizing: Sizing)
    : Option<Trade>
    requires Long(series, at.index + 1 + cfg.horizon) && cfg.horizon >= 1
  {
    if candidate >= |at.windows| || at.windows[candidate].bars == [] then None
    else
      var instrument := at.windows[candidate].instrument;
      var bars, rank := Horizon(cfg, series, at.index, instrument), FindRank(at.ranked, at.windows, instrument);
      if bars == None || rank == |at.ranked| then None
      else Some(Simulated(SourceOf(at, st, candidate, rank), sizing, cfg.costs, bars.value))
  }

  /** One more trade plan was made. */
  function Planned(st: Progress): Progress {
    st.(tradePlans := st.tradePlans + 1)
  }

  /** It was approved, and one more position plan was made. */
  function Positioned(st: Progress): Progress {
    Planned(st).(approvedTradePlans := st.approvedTradePlans + 1, positionPlans := st.positionPlans + 1)
  }

  /** That was approved too. */
  function Sized(st: Progress): Progress {
    Positioned(st).(approvedPositionPlans := st.approvedPositionPlans + 1)
  }

  function TradeFor(cfg: Config, series: seq<Series>, at: Cutoff, st: Progress, candidate: nat,
                    verdict: Option<Verdict>)
    : Option<Trade>
    requires Long(series, at.index + 1 + cfg.horizon) && cfg.horizon >= 1
  {
    match verdict
    case Some(ApprovedPosition(sizing)) => NewTrade(cfg, series, at, Sized(st), candidate, sizing)
    case _ => None
  }

  function Advance(st: Progress, verdict: Option<Verdict>, trade: Option<Trade>): Option<Progress> {
    if st.tradePlans >= MAX_SEQUENCE then None
    else
      match verdict
      case None => None
      case Some(RejectedPlan) => Some(Planned(st))
      case Some(RejectedPosition) => if st.positionPlans >= MAX_SEQUENCE then None else Some(Positioned(st))
      case Some(ApprovedPosition(_)) =>
        if st.positionPlans >= MAX_SEQUENCE || trade == None then None
        else Some(Sized(st).(trades := st.trades + [trade.value]))
  }

  function StepRanked(cfg: Config, strategy: Strategy, series: seq<Series>, at: Cutoff, st: Progress, k: nat)
    : Option<Progress>
    requires Long(series, at.index + 1 + cfg.horizon) && cfg.horizon >= 1 && k < |at.ranked|
  {
    var candidate := at.ranked[k].candidate;
    if candidate >= |at.windows| then None
    else
      var verdict := strategy.plan(at.windows, candidate);
      Advance(st, verdict, TradeFor(cfg, series, at, st, candidate, verdict))
  }

  function FoldRanked(cfg: Config, strategy: Strategy, series: seq<Series>, at: Cutoff, st: Progress, n: nat)
    : Option<Progress>
    requires Long(series, at.index + 1 + cfg.horizon) && cfg.horizon >= 1 && n <= |at.ranked|
  {
    if n == 0 then Some(st)
    else
      match FoldRanked(cfg, strategy, series, at, st, n - 1)
      case None => None
      case Some(next) => StepRanked(cfg, strategy, series, at, next, n - 1)
  }

  function StepCutoff(cfg: Config, strategy: Strategy, series: seq<Series>, st: Progress, index: nat): Option<Progress>
    requires Long(series, index + 1 + cfg.horizon) && cfg.horizon >= 1
  {
    var windows := Truncate(series, index + 1);
    if st.candidates + |series| > MAX_SEQUENCE || st.scans >= MAX_SEQUENCE then None
    else
      match strategy.scan(windows)
      case None => None
      case Some(ranked) =>
        var scanned := st.(candidates := st.candidates + |series|, scans := st.scans + 1);
        FoldRanked(cfg, strategy, series, Cutoff(index, windows, ranked, st.candidates), scanned, |ranked|)
  }

  /** The cutoffs from the reference window up to `end`. */
  function RunCutoffs(cfg: Config, strategy: Strategy, series: seq<Series>, end: nat): Option<Progress>
    requires Long(series, end + cfg.horizon) && cfg.horizon >= 1
  {
    if end <= cfg.window then Some(START)
    else
      match RunCutoffs(cfg, strategy, series, end - 1)
      case None => None
      case Some(st) => StepCutoff(cfg, strategy, series, st, end - 1)
  }

  predicate SeriesLeq(a: Series, b: Series) {
    a.instrument <= b.instrument
  }

  /** The series in the order of their instruments. */
  function Ordered(dataset: seq<Series>): (r: seq<Series>)
    ensures forall n: nat :: Long(dataset, n) ==> Long(r, n)
  {
    OrderedLong(dataset);
    Sort(SeriesLeq, dataset)
  }

  lemma OrderedLong(dataset: seq<Series>)
    ensures forall n: nat :: Long(dataset, n) ==> Long(Sort(SeriesLeq, dataset), n)
  {
    forall n: nat, s | Long(dataset, n) && s in Sort(SeriesLeq, dataset)
      ensures |s.bars| >= n
    {
      InSort(SeriesLeq, dataset, s);
    }
  }

  /** The specification of `BuildRun`. */
  function RunOf(cfg: Config, strategy: Strategy, dataset: seq<Series>): Option<Progress>
    requires cfg.horizon >= 1 && dataset != [] && Long(dataset, |dataset[0].bars|)
  {
    var bars := |dataset[0].bars|;
    if cfg.window < 1 || bars <= cfg.window + cfg.horizon then None
    else RunCutoffs(cfg, strategy, Ordered(dataset), bars - cfg.horizon)
  }

  lemma FoldNext(cfg: Config, strategy: Strategy, series: seq<Series>, at: Cutoff, st: Progress, now: Progress, k: nat)
    requires Long(series, at.index + 1 + cfg.horizon) && cfg.horizon >= 1 && k < |at.ranked|
    requires FoldRanked(cfg, strategy, series, at, st, k) == Some(now)
    ensures FoldRanked(cfg, strategy, series, at, st, k + 1) == StepRanked(cfg, strategy, series, at, now, k)
  {
  }

  lemma {:induction false} FoldFailsEarly(cfg: Config, strategy: Strategy, series: seq<Series>, at: Cutoff,
                                          st: Progress, n: nat, m: nat)
    requires Long(series, at.index + 1 + cfg.horizon) && cfg.horizon >= 1 && n <= m <= |at.ranked|
    requires FoldRanked(cfg, strategy, series, at, st, n) == None
    ensures FoldRanked(cfg, strategy, series, at, st, m) == None
    decreases m - n
  {
    if n == m {
    } else {
      FoldFailsEarly(cfg, strategy, series, at, st, n, m - 1);
    }
  }

  lemma {:induction false} RunFailsEarly(cfg: Config, strategy: Strategy, series: seq<Series>, n: nat, m: nat)
    requires n <= m && Long(series, m + cfg.horizon) && cfg.horizon >= 1
    requires RunCutoffs(cfg, strategy, series, n) == None
    ensures RunCutoffs(cfg, strategy, series, m) == None
    decreases m - n
  {
    if n == m {
    } else {
      RunFailsEarly(cfg, strategy, series, n, m - 1);
      assert m > cfg.window;
    }
  }

  /** The ranked opportunities of one cutoff, in order, with the local counters. */
  method ProcessRanked(cfg: Config, strategy: Strategy, series: seq<Series>, at: Cutoff, st: Progress)
    returns (r: Option<Progress>)
    requires Long(series, at.index + 1 + cfg.horizon) && cfg.horizon >= 1
    ensures r == FoldRanked(cfg, strategy, series, at, st, |at.ranked|)
  {
    var tradePlans: nat, positionPlans: nat := st.tradePlans, st.positionPlans;
    var approvedTradePlans: nat, approvedPositionPlans: nat := st.approvedTradePlans, st.approvedPositionPlans;
    var trades := st.trades;
    var k := 0;
    while k < |at.ranked|
      invariant 0 <= k <= |at.ranked|
      invariant FoldRanked(cfg, strategy, series, at, st, k)
             == Some(Progress(st.candidates, st.scans, tradePlans, positionPlans, approvedTradePlans,
                              approvedPositionPlans, trades))
    {
      var candidate := at.ranked[k].candidate;
      var verdict := strategy.plan(at.windows, candidate);
      ghost var now := Progress(st.candidates, st.scans, tradePlans, positionPlans, approvedTradePlans,
                                approvedPositionPlans, trades);
      FoldNext(cfg, strategy, series, at, st, now, k);
      if candidate >= |at.windows| || tradePlans >= MAX_SEQUENCE || verdict == None
         || (verdict != Some(RejectedPlan) && positionPlans >= MAX_SEQUENCE) {
        assert StepRanked(cfg, strategy, series, at, now, k) == None;
        FoldFailsEarly(cfg, strategy, series, at, st, k + 1, |at.ranked|);
        return None;
      }
      k := k + 1;
      tradePlans := tradePlans + 1;
      if verdict == Some(RejectedPlan) {
        assert StepRanked(cfg, strategy, series, at, now, k - 1) == Some(Planned(now));
        continue;
      }
      approvedTradePlans := approvedTradePlans + 1;
      positionPlans := positionPlans + 1;
      if verdict == Some(RejectedPosition) {
        assert StepRanked(cfg, strategy, series, at, now, k - 1) == Some(Positioned(now));
        continue;
      }
      approvedPositionPlans := approvedPositionPlans + 1;
      var counted := Progress(st.candidates, st.scans, tradePlans, positionPlans, approvedTradePlans,
                              approvedPositionPlans, trades);
      assert counted == Sized(now);
      var trade := NewTrade(cfg, series, at, counted, candidate, verdict.value.sizing);
      if trade == None {
        assert StepRanked(cfg, strategy, series, at, now, k - 1) == None;
        FoldFailsEarly(cfg, strategy, series, at, st, k, |at.ranked|);
        return None;
      }
      trades := trades + [trade.value];
      assert StepRanked(cfg, strategy, series, at, now, k - 1) == Some(Sized(now).(trades := trades));
    }
    return Some(Progress(st.candidates, st.scans, tradePlans, positionPlans, approvedTradePlans,
                         approvedPositionPlans, trades));
  }

  /** One cutoff: observe, scan, then plan and simulate what was ranked. */
  method ProcessCutoff(cfg: Config, strategy: Strategy, series: seq<Series>, st: Progress, index: nat)
    returns (r: Option<Progress>)
    requires Long(series, index + 1 + cfg.horizon) && cfg.horizon >= 1
    ensures r == StepCutoff(cfg, strategy, series, st, index)
  {
    var windows := Truncate(series, index + 1);
    var scan := strategy.scan(windows);
    if st.candidates + |series| > MAX_SEQUENCE || st.scans >= MAX_SEQUENCE || scan == None {
      return None;
    }
    var scanned := st.(candidates := st.candidates + |series|, scans := st.scans + 1);
    r := ProcessRanked(cfg, strategy, series, Cutoff(index, windows, scan.value, st.candidates), scanned);
  }

  lemma RunNext(cfg: Config, strategy: Strategy, series: seq<Series>, index: nat, st: Progress)
    requires cfg.horizon >= 1 && index >= cfg.window && Long(series, index + 1 + cfg.horizon)
    requires RunCutoffs(cfg, strategy, series, index) == Some(st)
    ensures RunCutoffs(cfg, strategy, series, index + 1) == StepCutoff(cfg, strategy, series, st, index)
  {
  }

  /** Every cutoff from the reference window up to `end`, in order. */
  method ProcessCutoffs(cfg: Config, strategy: Strategy, series: seq<Series>, end: nat) returns (r: Option<Progress>)
    requires cfg.horizon >= 1 && cfg.window <= end && Long(series, end + cfg.horizon)
    ensures r == RunCutoffs(cfg, strategy, series, end)
  {
    var st := START;
    for index := cfg.window to end
      invariant RunCutoffs(cfg, strategy, series, index) == Some(st)
    {
      RunNext(cfg, strategy, series, index, st);
      var next := ProcessCutoff(cfg, strategy, series, st, index);
      if next == None {
        RunFailsEarly(cfg, strategy, series, index + 1, end);
        return None;
      }
      st := next.value;
    }
    return Some(st);
  }

  method BuildRun(cfg: Config, strategy: Strategy, dataset: seq<Series>) returns (r: Option<Progress>)
    requires cfg.horizon >= 1 && dataset != [] && Long(dataset, |dataset[0].bars|)
    ensures r == RunOf(cfg, strategy, dataset)
  {
    var bars := |dataset[0].bars|;
    if cfg.window < 1 || bars <= cfg.window + cfg.horizon {
      return None;
    }
    r := ProcessCutoffs(cfg, strategy, Ordered(dataset), bars - cfg.horizon);
  }

  // ----- causality -----

  lemma TruncateTwice(series: seq<Series>, m: nat, n: nat)
    requires n <= m && Long(series, m)
    ensures Truncate(Truncate(series, m), n) == Truncate(series, n)
  {
    forall i | 0 <= i < |series|
      ensures Truncate(Truncate(series, m), n)[i] == Truncate(series, n)[i]
    {
      assert series[i] in series;
      assert series[i].bars[..m][..n] == series[i].bars[..n];
    }
  }

  lemma TruncateLong(series: seq<Series>, m: nat, n: nat)
    requires n <= m && Long(series, m)
    ensures Long(Truncate(series, m), n)
  {
    forall s | s in Truncate(series, m)
      ensures |s.bars| >= n
    {
      var i :| 0 <= i < |series| && Truncate(series, m)[i] == s;
      assert series[i] in series;
    }
  }

  lemma {:induction false} TruncateKeepsInstruments(series: seq<Series>, m: nat, instrument: Instrument)
    ensures FindSeries(Truncate(series, m), instrument) == FindSeries(series, instrument)
  {
    if series == [] {
    } else {
      assert Truncate(series, m)[1..] == Truncate(series[1..], m);
      TruncateKeepsInstruments(series[1..], m, instrument);
    }
  }

  lemma SameBars(series: seq<Series>, m: nat, found: nat, lo: nat, hi: nat)
    requires Long(series, m) && found < |series| && lo <= hi <= m
    ensures |series[found].bars| >= m && |Truncate(series, m)[found].bars| == m
    ensures Truncate(series, m)[found].bars[lo..hi] == series[found].bars[lo..hi]
  {
  }

  lemma SameHorizon(cfg: Config, series: seq<Series>, m: nat, index: nat, instrument: Instrument)
    requires index + 1 + cfg.horizon <= m && Long(series, m)
    ensures Long(Truncate(series, m), index + 1 + cfg.horizon)
    ensures Horizon(cfg, Truncate(series, m), index, instrument) == Horizon(cfg, series, index, instrument)
  {
    TruncateLong(series, m, index + 1 + cfg.horizon);
    var found := FindSeries(series, instrument);
    TruncateKeepsInstruments(series, m, instrument);
    if found < |series| {
      SameBars(series, m, found, index + 1, index + 1 + cfg.horizon);
    }
  }

  lemma SameTrade(cfg: Config, series: seq<Series>, m: nat, at: Cutoff, st: Progress, candidate: nat, sizing: Sizing)
    requires cfg.horizon >= 1 && at.index + 1 + cfg.horizon <= m && Long(series, m)
    ensures Long(Truncate(series, m), at.index + 1 + cfg.horizon)
    ensures NewTrade(cfg, Truncate(series, m), at, st, candidate, sizing)
            == NewTrade(cfg, series, at, st, candidate, sizing)
  {
    TruncateLong(series, m, at.index + 1 + cfg.horizon);
    if candidate < |at.windows| && at.windows[candidate].bars != [] {
      SameHorizon(cfg, series, m, at.index, at.windows[candidate].instrument);
    }
  }

  lemma SameTradeFor(cfg: Config, series: seq<Series>, m: nat, at: Cutoff, st: Progress, candidate: nat,
                     verdict: Option<Verdict>)
    requires cfg.horizon >= 1 && at.index + 1 + cfg.horizon <= m && Long(series, m)
    ensures Long(Truncate(series, m), at.index + 1 + cfg.horizon)
    ensures TradeFor(cfg, Truncate(series, m), at, st, candidate, verdict)
            == TradeFor(cfg, series, at, st, candidate, verdict)
  {
    TruncateLong(series, m, at.index + 1 + cfg.horizon);
    match verdict
    case Some(ApprovedPosition(sizing)) => SameTrade(cfg, series, m, at, Sized(st), candidate, sizing);
    case _ =>
  }

  lemma SameStep(cfg: Config, strategy: Strategy, series: seq<Series>, m: nat, at: Cutoff, st: Progress, k: nat)
    requires cfg.horizon >= 1 && at.index + 1 + cfg.horizon <= m && Long(series, m) && k < |at.ranked|
    ensures Long(Truncate(series, m), at.index + 1 + cfg.horizon)
    ensures StepRanked(cfg, strategy, Truncate(series, m), at, st, k) == StepRanked(cfg, strategy, series, at, st, k)
  {
    var candidate := at.ranked[k].candidate;
    SameTradeFor(cfg, series, m, at, st, candidate, strategy.plan(at.windows, candidate));
  }

  lemma {:induction false} SameFold(cfg: Config, strategy: Strategy, series: seq<Series>, m: nat, at: Cutoff,
                                    st: Progress, n: nat)
    requires cfg.horizon >= 1 && at.index + 1 + cfg.horizon <= m && Long(series, m) && n <= |at.ranked|
    ensures Long(Truncate(series, m), at.index + 1 + cfg.horizon)
    ensures FoldRanked(cfg, strategy, Truncate(series, m), at, st, n) == FoldRanked(cfg, strategy, series, at, st, n)
  {
    TruncateLong(series, m, at.index + 1 + cfg.horizon);
    if n == 0 {
    } else {
      SameFold(cfg, strategy, series, m, at, st, n - 1);
      var before := FoldRanked(cfg, strategy, series, at, st, n - 1);
      if before.Some? {
        FoldNext(cfg, strategy, series, at, st, before.value, n - 1);
        FoldNext(cfg, strategy, Truncate(series, m), at, st, before.value, n - 1);
        SameStep(cfg, strategy, series, m, at, before.value, n - 1);
      }
    }
  }

  /** A run up to cutoff `end` depends on no bar behind the last horizon. */
  lemma {:induction false} SameCutoffs(cfg: Config, strategy: Strategy, series: seq<Series>, m: nat, end: nat)
    requires cfg.horizon >= 1 && end + cfg.horizon <= m && Long(series, m)
    ensures Long(Truncate(series, m), end + cfg.horizon)
    ensures RunCutoffs(cfg, strategy, Truncate(series, m), end) == RunCutoffs(cfg, strategy, series, end)
  {
    TruncateLong(series, m, end + cfg.horizon);
    if end <= cfg.window {
    } else {
      SameCutoffs(cfg, strategy, series, m, end - 1);
      SameNext(cfg, strategy, series, m, end - 1);
    }
  }

  lemma SameNext(cfg: Config, strategy: Strategy, series: seq<Series>, m: nat, index: nat)
    requires cfg.horizon >= 1 && cfg.window <= index && index + 1 + cfg.horizon <= m && Long(series, m)
    requires Long(Truncate(series, m), index + 1 + cfg.horizon)
    requires RunCutoffs(cfg, strategy, Truncate(series, m), index) == RunCutoffs(cfg, strategy, series, index)
    ensures RunCutoffs(cfg, strategy, Truncate(series, m), index + 1) == RunCutoffs(cfg, strategy, series, index + 1)
  {
    var before := RunCutoffs(cfg, strategy, series, index);
    if before.Some? {
      RunNext(cfg, strategy, series, index, before.value);
      RunNext(cfg, strategy, Truncate(series, m), index, before.value);
      SameCutoff(cfg, strategy, series, m, before.value, index);
    }
  }

  lemma SameCutoff(cfg: Config, strategy: Strategy, series: seq<Series>, m: nat, st: Progress, index: nat)
    requires cfg.horizon >= 1 && index + 1 + cfg.horizon <= m && Long(series, m)
    ensures Long(Truncate(series, m), index + 1 + cfg.horizon)
    ensures StepCutoff(cfg, strategy, Truncate(series, m), st, index) == StepCutoff(cfg, strategy, series, st, index)
  {
    TruncateLong(series, m, index + 1 + cfg.horizon);
    TruncateTwice(series, m, index + 1);
    match strategy.scan(Truncate(series, index + 1))
    case None =>
    case Some(ranked) =>
      var scanned := st.(candidates := st.candidates + |series|, scans := st.scans + 1);
      var at := Cutoff(index, Truncate(series, index + 1), ranked, st.candidates);
      SameFold(cfg, strategy, series, m, at, scanned, |ranked|);
  }

  lemma {:induction false} TradesGrow(cfg: Config, strategy: Strategy, series: seq<Series>, at: Cutoff, st: Progress,
                                      n: nat)
    requires cfg.horizon >= 1 && Long(series, at.index + 1 + cfg.horizon) && n <= |at.ranked|
    ensures var r := FoldRanked(cfg, strategy, series, at, st, n); r.Some? ==> st.trades <= r.value.trades
  {
    if n == 0 {
    } else {
      TradesGrow(cfg, strategy, series, at, st, n - 1);
    }
  }

  lemma CutoffGrows(cfg: Config, strategy: Strategy, series: seq<Series>, st: Progress, index: nat)
    requires cfg.horizon >= 1 && Long(series, index + 1 + cfg.horizon)
    ensures var r := StepCutoff(cfg, strategy, series, st, index); r.Some? ==> st.trades <= r.value.trades
  {
    var r, windows := StepCutoff(cfg, strategy, series, st, index), Truncate(series, index + 1);
    if r.Some? {
      var ranked := strategy.scan(windows).value;
      var scanned := st.(candidates := st.candidates + |series|, scans := st.scans + 1);
      var at := Cutoff(index, windows, ranked, st.candidates);
      assert r == FoldRanked(cfg, strategy, series, at, scanned, |ranked|);
      TradesGrow(cfg, strategy, series, at, scanned, |ranked|);
    }
  }

  /** `later` failed, or `earlier` did not and its trades are the first of `later`. */
  predicate Extends(earlier: Option<Progress>, later: Option<Progress>) {
    later.Some? ==> earlier.Some? && earlier.value.trades <= later.value.trades
  }

  lemma NextCutoffExtends(cfg: Config, strategy: Strategy, series: seq<Series>, index: nat)
    requires cfg.horizon >= 1 && Long(series, index + 1 + cfg.horizon)
    ensures Extends(RunCutoffs(cfg, strategy, series, index), RunCutoffs(cfg, strategy, series, index + 1))
  {
    match RunCutoffs(cfg, strategy, series, index)
    case None =>
    case Some(st) => CutoffGrows(cfg, strategy, series, st, index);
  }

  lemma ExtendsTransitive(a: Option<Progress>, b: Option<Progress>, c: Option<Progress>)
    requires Extends(a, b) && Extends(b, c)
    ensures Extends(a, c)
  {
  }

  lemma {:induction false} ShorterRunIsPrefix(cfg: Config, strategy: Strategy, series: seq<Series>, n: nat, end: nat)
    requires cfg.horizon >= 1 && n <= end && Long(series, end + cfg.horizon)
    ensures Extends(RunCutoffs(cfg, strategy, series, n), RunCutoffs(cfg, strategy, series, end))
    decreases end - n
  {
    if n >= end {
    } else {
      ShorterRunIsPrefix(cfg, strategy, series, n, end - 1);
      NextCutoffExtends(cfg, strategy, series, end - 1);
      ExtendsTransitive(RunCutoffs(cfg, strategy, series, n), RunCutoffs(cfg, strategy, series, end - 1),
                        RunCutoffs(cfg, strategy, series, end));
    }
  }

  lemma OrderedTruncated(dataset: seq<Series>, m: nat)
    ensures Ordered(Truncate(dataset, m)) == Truncate(Ordered(dataset), m)
  {
    SortMap(SeriesLeq, SeriesLeq, TruncatedTo(m), dataset);
  }

  lemma RunOfLength(cfg: Config, strategy: Strategy, dataset: seq<Series>, m: nat)
    requires cfg.horizon >= 1 && cfg.window >= 1 && dataset != [] && Long(dataset, m) && |dataset[0].bars| == m
    requires cfg.window + cfg.horizon < m
    ensures RunOf(cfg, strategy, dataset) == RunCutoffs(cfg, strategy, Ordered(dataset), m - cfg.horizon)
  {
  }

  /** The run over the first `m` bars stops `horizon` short of them. */
  lemma TruncatedRun(cfg: Config, strategy: Strategy, dataset: seq<Series>, m: nat)
    requires cfg.horizon >= 1 && cfg.window >= 1 && dataset != [] && Long(dataset, m) && cfg.window + cfg.horizon < m
    ensures Truncate(dataset, m) != [] && Long(Truncate(dataset, m), |Truncate(dataset, m)[0].bars|)
    ensures RunOf(cfg, strategy, Truncate(dataset, m)) == RunCutoffs(cfg, strategy, Ordered(dataset), m - cfg.horizon)
  {
    TruncateLong(dataset, m, m);
    assert dataset[0] in dataset;
    assert |Truncate(dataset, m)[0].bars| == m;
    RunOfLength(cfg, strategy, Truncate(dataset, m), m);
    OrderedTruncated(dataset, m);
    SameCutoffs(cfg, strategy, Ordered(dataset), m, m - cfg.horizon);
  }

  /** Causality: if the run over a dataset succeeds, so does the run over its first `m` bars, for every `m` long
      enough to run at all, and its trades, with their sequence numbers and references, are the first trades of
      the longer run. */
  lemma Causality(cfg: Config, strategy: Strategy, dataset: seq<Series>, m: nat)
    requires cfg.horizon >= 1 && dataset != [] && Long(dataset, |dataset[0].bars|)
    requires cfg.window + cfg.horizon < m <= |dataset[0].bars| && RunOf(cfg, strategy, dataset).Some?
    ensures Truncate(dataset, m) != [] && Long(Truncate(dataset, m), |Truncate(dataset, m)[0].bars|)
    ensures var shorter := RunOf(cfg, strategy, Truncate(dataset, m));
            shorter.Some? && shorter.value.trades <= RunOf(cfg, strategy, dataset).value.trades
  {
    TruncatedRun(cfg, strategy, dataset, m);
    ShorterRunIsPrefix(cfg, strategy, Ordered(dataset), m - cfg.horizon, |dataset[0].bars| - cfg.horizon);
  }

  /** Two datasets that agree on their first `m` bars: both runs begin with the same trades, those of the run over
      the common past. */
  lemma CommonPastCommonTrades(cfg: Config, strategy: Strategy, a: seq<Series>, b: seq<Series>, m: nat)
    requires cfg.horizon >= 1 && a != [] && b != [] && Long(a, |a[0].bars|) && Long(b, |b[0].bars|)
    requires cfg.window + cfg.horizon < m <= |a[0].bars| && m <= |b[0].bars| && Truncate(a, m) == Truncate(b, m)
    requires RunOf(cfg, strategy, a).Some? && RunOf(cfg, strategy, b).Some?
    ensures Truncate(a, m) != [] && Long(Truncate(a, m), |Truncate(a, m)[0].bars|)
    ensures var common := RunOf(cfg, strategy, Truncate(a, m));
            && common.Some? && common.value.trades <= RunOf(cfg, strategy, a).value.trades
            && common.value.trades <= RunOf(cfg, strategy, b).value.trades
  {
    Causality(cfg, strategy, a, m);
    Causality(cfg, strategy, b, m);
  }
}
