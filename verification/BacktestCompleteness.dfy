/** Nothing is lost: a finished run has one trade for every approved position, in the order of the scans, and its
    counters count the ranked opportunities. */
module BacktestCompleteness {
  import opened Wrappers
  import opened Sorting
  import opened TradeSimulation
  import opened Backtest
  import opened BacktestTrades

  /** The ranked opportunity at `place` of the scan at bar `cutoff`. */
  datatype Opportunity = Opportunity(cutoff: nat, place: nat)

  /** What the scan at bar `c` ranked. */
  function RankedAt(strategy: Strategy, series: seq<Series>, c: nat): seq<Ranked> {
    match strategy.scan(Truncate(series, c + 1))
    case None => []
    case Some(ranked) => ranked
  }

  /** What the planners decided about `o`. */
  function PlanAt(strategy: Strategy, series: seq<Series>, o: Opportunity): Option<Verdict> {
    var ranked := RankedAt(strategy, series, o.cutoff);
    if o.place < |ranked| then strategy.plan(Truncate(series, o.cutoff + 1), ranked[o.place].candidate) else None
  }

  function IsPlanned(strategy: Strategy, series: seq<Series>): Opportunity -> bool {
    (o: Opportunity) => PlanAt(strategy, series, o).Some? && PlanAt(strategy, series, o) != Some(RejectedPlan)
  }

  function IsApproved(strategy: Strategy, series: seq<Series>): Opportunity -> bool {
    (o: Opportunity) => PlanAt(strategy, series, o).Some? && PlanAt(strategy, series, o).value.ApprovedPosition?
  }

  /** `t` is the trade on `o`: decided there and simulated on the bars behind its cutoff. */
  ghost predicate TradedOn(cfg: Config, strategy: Strategy, series: seq<Series>, t: Trade, o: Opportunity) {
    var ranked := RankedAt(strategy, series, o.cutoff);
    && o.place < |ranked| && TradeAt(cfg, series, t, o.cutoff, ranked[o.place].candidate)
    && DecidedAt(strategy, series, t, o.cutoff, ranked[o.place].candidate)
  }

  /** The trade on the `i`-th approved opportunity, under the numbers its plans have among all of them. */
  ghost predicate TradeListed(cfg: Config, strategy: Strategy, series: seq<Series>, t: Trade, o: Opportunity,
                              all: seq<Opportunity>, planned: seq<Opportunity>) {
    && TradedOn(cfg, strategy, series, t, o)
    && 1 <= t.source.tradePlan <= |all| && all[t.source.tradePlan - 1] == o
    && 1 <= t.source.positionPlan <= |planned| && planned[t.source.positionPlan - 1] == o
  }

  ghost predicate AllListed(cfg: Config, strategy: Strategy, series: seq<Series>, trades: seq<Trade>,
                            all: seq<Opportunity>, planned: seq<Opportunity>, approved: seq<Opportunity>) {
    && |trades| == |approved|
    && forall i :: 0 <= i < |trades| ==> TradeListed(cfg, strategy, series, trades[i], approved[i], all, planned)
  }

  /** Every opportunity of `all` is counted once, and every approved one has its trade, in order. */
  ghost predicate Complete(cfg: Config, strategy: Strategy, series: seq<Series>, st: Progress,
                           all: seq<Opportunity>) {
    var planned := Filter(IsPlanned(strategy, series), all);
    var approved := Filter(IsApproved(strategy, series), all);
    && st.tradePlans == |all| && st.positionPlans == st.approvedTradePlans == |planned|
    && st.approvedPositionPlans == |approved|
    && AllListed(cfg, strategy, series, st.trades, all, planned, approved)
  }

  // ----- one opportunity -----

  lemma MoreListed(cfg: Config, strategy: Strategy, series: seq<Series>, trades: seq<Trade>, all: seq<Opportunity>,
                   planned: seq<Opportunity>, approved: seq<Opportunity>, all2: seq<Opportunity>,
                   planned2: seq<Opportunity>)
    requires AllListed(cfg, strategy, series, trades, all, planned, approved) && all <= all2 && planned <= planned2
    ensures AllListed(cfg, strategy, series, trades, all2, planned2, approved)
  {
    forall i | 0 <= i < |trades|
      ensures TradeListed(cfg, strategy, series, trades[i], approved[i], all2, planned2)
    {
      assert TradeListed(cfg, strategy, series, trades[i], approved[i], all, planned);
    }
  }

  lemma OneMoreListed(cfg: Config, strategy: Strategy, series: seq<Series>, trades: seq<Trade>, t: Trade,
                      all: seq<Opportunity>, planned: seq<Opportunity>, approved: seq<Opportunity>, o: Opportunity)
    requires AllListed(cfg, strategy, series, trades, all, planned, approved)
    requires TradedOn(cfg, strategy, series, t, o)
    requires t.source.tradePlan == |all| + 1 && t.source.positionPlan == |planned| + 1
    ensures AllListed(cfg, strategy, series, trades + [t], all + [o], planned + [o], approved + [o])
  {
    MoreListed(cfg, strategy, series, trades, all, planned, approved, all + [o], planned + [o]);
  }

  lemma RejectedCounted(cfg: Config, strategy: Strategy, series: seq<Series>, st: Progress, all: seq<Opportunity>,
                        o: Opportunity)
    requires Complete(cfg, strategy, series, st, all) && PlanAt(strategy, series, o) == Some(RejectedPlan)
    ensures Complete(cfg, strategy, series, Planned(st), all + [o])
  {
    var planned := Filter(IsPlanned(strategy, series), all);
    FilterNext(IsPlanned(strategy, series), all, o);
    FilterNext(IsApproved(strategy, series), all, o);
    MoreListed(cfg, strategy, series, st.trades, all, planned, Filter(IsApproved(strategy, series), all), all + [o],
               planned);
  }

  lemma UnsizedCounted(cfg: Config, strategy: Strategy, series: seq<Series>, st: Progress, all: seq<Opportunity>,
                       o: Opportunity)
    requires Complete(cfg, strategy, series, st, all) && PlanAt(strategy, series, o) == Some(RejectedPosition)
    ensures Complete(cfg, strategy, series, Positioned(st), all + [o])
  {
    var planned := Filter(IsPlanned(strategy, series), all);
    FilterNext(IsPlanned(strategy, series), all, o);
    FilterNext(IsApproved(strategy, series), all, o);
    MoreListed(cfg, strategy, series, st.trades, all, planned, Filter(IsApproved(strategy, series), all), all + [o],
               planned + [o]);
  }

  lemma ApprovedCounted(cfg: Config, strategy: Strategy, series: seq<Series>, st: Progress, all: seq<Opportunity>,
                        o: Opportunity, t: Trade)
    requires Complete(cfg, strategy, series, st, all) && TradedOn(cfg, strategy, series, t, o)
    requires PlanAt(strategy, series, o).Some? && PlanAt(strategy, series, o).value.ApprovedPosition?
    requires t.source.tradePlan == st.tradePlans + 1 && t.source.positionPlan == st.positionPlans + 1
    ensures Complete(cfg, strategy, series, Sized(st).(trades := st.trades + [t]), all + [o])
  {
    var planned := Filter(IsPlanned(strategy, series), all);
    FilterNext(IsPlanned(strategy, series), all, o);
    FilterNext(IsApproved(strategy, series), all, o);
    OneMoreListed(cfg, strategy, series, st.trades, t, all, planned, Filter(IsApproved(strategy, series), all), o);
  }

  /** One step of a cutoff counts exactly its opportunity. */
  lemma StepComplete(cfg: Config, strategy: Strategy, series: seq<Series>, at: Cutoff, st: Progress, k: nat,
                     all: seq<Opportunity>)
    requires Long(series, at.index + 1 + cfg.horizon) && cfg.horizon >= 1 && k < |at.ranked|
    requires DistinctInstruments(series) && Within(cfg, strategy, series, at, st.candidates, st)
    requires Complete(cfg, strategy, series, st, all)
    ensures var r := StepRanked(cfg, strategy, series, at, st, k);
            r.Some? ==> Complete(cfg, strategy, series, r.value, all + [Opportunity(at.index, k)])
  {
    var r, o := StepRanked(cfg, strategy, series, at, st, k), Opportunity(at.index, k);
    var f := at.ranked[k].candidate;
    assert PlanAt(strategy, series, o) == strategy.plan(at.windows, f);
    if r.Some? {
      match PlanAt(strategy, series, o)
      case Some(RejectedPlan) => RejectedCounted(cfg, strategy, series, st, all, o);
      case Some(RejectedPosition) => UnsizedCounted(cfg, strategy, series, st, all, o);
      case Some(ApprovedPosition(sizing)) =>
        var t := NewTrade(cfg, series, at, Sized(st), f, sizing).value;
        NewTradeAt(cfg, strategy, series, at, Sized(st), f, sizing, t);
        ApprovedCounted(cfg, strategy, series, st, all, o, t);
    }
  }

  // ----- a cutoff, a run -----

  function PlacesOf(cutoff: nat, n: nat): seq<Opportunity> {
    seq(n, k requires 0 <= k < n => Opportunity(cutoff, k))
  }

  lemma PlacesNext(all: seq<Opportunity>, cutoff: nat, n: nat)
    ensures all + PlacesOf(cutoff, n + 1) == all + PlacesOf(cutoff, n) + [Opportunity(cutoff, n)]
  {
  }

  lemma FoldCompleteOne(cfg: Config, strategy: Strategy, series: seq<Series>, at: Cutoff, st: Progress,
                        before: Progress, k: nat, all: seq<Opportunity>)
    requires Long(series, at.index + 1 + cfg.horizon) && cfg.horizon >= 1 && k < |at.ranked|
    requires DistinctInstruments(series) && Within(cfg, strategy, series, at, before.candidates, before)
    requires FoldRanked(cfg, strategy, series, at, st, k) == Some(before)
    requires Complete(cfg, strategy, series, before, all)
    ensures var r := FoldRanked(cfg, strategy, series, at, st, k + 1);
            r.Some? ==>
              && Within(cfg, strategy, series, at, before.candidates, r.value)
              && Complete(cfg, strategy, series, r.value, all + [Opportunity(at.index, k)])
  {
    FoldNext(cfg, strategy, series, at, st, before, k);
    StepAccounted(cfg, strategy, series, at, before, k);
    StepComplete(cfg, strategy, series, at, before, k, all);
  }

  lemma {:induction false} FoldComplete(cfg: Config, strategy: Strategy, series: seq<Series>, at: Cutoff,
                                        st: Progress, n: nat, all: seq<Opportunity>)
    requires Long(series, at.index + 1 + cfg.horizon) && cfg.horizon >= 1 && n <= |at.ranked|
    requires DistinctInstruments(series) && Within(cfg, strategy, series, at, st.candidates, st)
    requires Complete(cfg, strategy, series, st, all)
    ensures var r := FoldRanked(cfg, strategy, series, at, st, n);
            r.Some? ==>
              && Within(cfg, strategy, series, at, st.candidates, r.value)
              && Complete(cfg, strategy, series, r.value, all + PlacesOf(at.index, n))
  {
    if n == 0 {
      assert all + PlacesOf(at.index, 0) == all;
    } else {
      var k, before := n - 1, FoldRanked(cfg, strategy, series, at, st, n - 1);
      FoldComplete(cfg, strategy, series, at, st, k, all);
      if before.Some? {
        PlacesNext(all, at.index, k);
        FoldCompleteOne(cfg, strategy, series, at, st, before.value, k, all + PlacesOf(at.index, k));
      }
    }
  }

  /** Every place of every scan from the window up to `end`, in order. */
  function OpportunitiesBefore(cfg: Config, strategy: Strategy, series: seq<Series>, end: nat): seq<Opportunity> {
    if end <= cfg.window then []
    else
      OpportunitiesBefore(cfg, strategy, series, end - 1)
      + PlacesOf(end - 1, |RankedAt(strategy, series, end - 1)|)
  }

  lemma CutoffIsFold(cfg: Config, strategy: Strategy, series: seq<Series>, st: Progress, index: nat)
    requires Long(series, index + 1 + cfg.horizon) && cfg.horizon >= 1
    ensures var r, ranked := StepCutoff(cfg, strategy, series, st, index), RankedAt(strategy, series, index);
            r.Some? ==>
              && strategy.scan(Truncate(series, index + 1)) == Some(ranked)
              && r == FoldRanked(cfg, strategy, series,
                                 Cutoff(index, Truncate(series, index + 1), ranked, st.candidates),
                                 st.(candidates := st.candidates + |series|, scans := st.scans + 1), |ranked|)
  {
  }

  lemma CutoffComplete(cfg: Config, strategy: Strategy, series: seq<Series>, st: Progress, index: nat,
                       all: seq<Opportunity>)
    requires Long(series, index + 1 + cfg.horizon) && cfg.horizon >= 1 && DistinctInstruments(series)
    requires Between(cfg, strategy, series, st, index) && Complete(cfg, strategy, series, st, all)
    ensures var r := StepCutoff(cfg, strategy, series, st, index);
            r.Some? ==>
              Complete(cfg, strategy, series, r.value, all + PlacesOf(index, |RankedAt(strategy, series, index)|))
  {
    if StepCutoff(cfg, strategy, series, st, index).Some? {
      CutoffIsFold(cfg, strategy, series, st, index);
      var ranked := RankedAt(strategy, series, index);
      var scanned := st.(candidates := st.candidates + |series|, scans := st.scans + 1);
      var at := Cutoff(index, Truncate(series, index + 1), ranked, st.candidates);
      ScanWithin(cfg, strategy, series, st, index, ranked);
      FoldComplete(cfg, strategy, series, at, scanned, |ranked|, all);
    }
  }

  lemma OpportunitiesNext(cfg: Config, strategy: Strategy, series: seq<Series>, index: nat)
    requires cfg.window <= index
    ensures OpportunitiesBefore(cfg, strategy, series, index + 1)
         == OpportunitiesBefore(cfg, strategy, series, index)
            + PlacesOf(index, |RankedAt(strategy, series, index)|)
  {
  }

  lemma {:induction false} RunComplete(cfg: Config, strategy: Strategy, series: seq<Series>, end: nat)
    requires Long(series, end + cfg.horizon) && cfg.horizon >= 1 && cfg.window <= end && DistinctInstruments(series)
    ensures var r := RunCutoffs(cfg, strategy, series, end);
            r.Some? ==> Complete(cfg, strategy, series, r.value, OpportunitiesBefore(cfg, strategy, series, end))
  {
    if end == cfg.window {
    } else {
      var index := end - 1;
      RunComplete(cfg, strategy, series, index);
      OpportunitiesNext(cfg, strategy, series, index);
      var before, all := RunCutoffs(cfg, strategy, series, index), OpportunitiesBefore(cfg, strategy, series, index);
      if before.Some? {
        OneCutoffMore(cfg, strategy, series, before.value, index, all);
      }
    }
  }

  lemma OneCutoffMore(cfg: Config, strategy: Strategy, series: seq<Series>, st: Progress, index: nat,
                      all: seq<Opportunity>)
    requires Long(series, index + 1 + cfg.horizon) && cfg.horizon >= 1 && cfg.window <= index
    requires DistinctInstruments(series) && RunCutoffs(cfg, strategy, series, index) == Some(st)
    requires Complete(cfg, strategy, series, st, all)
    ensures var r := RunCutoffs(cfg, strategy, series, index + 1);
            r.Some? ==>
              Complete(cfg, strategy, series, r.value, all + PlacesOf(index, |RankedAt(strategy, series, index)|))
  {
    RunNext(cfg, strategy, series, index, st);
    RunAccounted(cfg, strategy, series, index);
    CutoffComplete(cfg, strategy, series, st, index, all);
  }

  // ----- the opportunities of a run -----

  predicate Precedes(a: Opportunity, b: Opportunity) {
    a.cutoff < b.cutoff || (a.cutoff == b.cutoff && a.place < b.place)
  }

  lemma {:induction false} AllOpportunities(cfg: Config, strategy: Strategy, series: seq<Series>, end: nat)
    ensures var all := OpportunitiesBefore(cfg, strategy, series, end);
            && IsSorted(Precedes, all)
            && forall o :: o in all <==>
                 cfg.window <= o.cutoff < end && o.place < |RankedAt(strategy, series, o.cutoff)|
  {
    if end <= cfg.window {
    } else {
      AllOpportunities(cfg, strategy, series, end - 1);
      var earlier := OpportunitiesBefore(cfg, strategy, series, end - 1);
      AllPlaces(end - 1, |RankedAt(strategy, series, end - 1)|);
      AppendLater(earlier, PlacesOf(end - 1, |RankedAt(strategy, series, end - 1)|), end - 1);
    }
  }

  lemma AllPlaces(cutoff: nat, n: nat)
    ensures IsSorted(Precedes, PlacesOf(cutoff, n))
    ensures forall o :: o in PlacesOf(cutoff, n) <==> o.cutoff == cutoff && o.place < n
  {
    forall o: Opportunity | o.cutoff == cutoff && o.place < n
      ensures o in PlacesOf(cutoff, n)
    {
      assert PlacesOf(cutoff, n)[o.place] == o;
    }
  }

  lemma AppendLater(earlier: seq<Opportunity>, later: seq<Opportunity>, cutoff: nat)
    requires IsSorted(Precedes, earlier) && forall o :: o in earlier ==> o.cutoff < cutoff
    requires IsSorted(Precedes, later) && forall o :: o in later ==> o.cutoff == cutoff
    ensures IsSorted(Precedes, earlier + later)
  {
  }

  /** Every finished run over a valid dataset is complete: `all` lists every place of every scan once, in order; the
      counters count them, the ones planned and the ones approved; and the trades are those on the approved ones, one
      each, in the same order. */
  lemma EveryApprovalTraded(cfg: Config, strategy: Strategy, dataset: seq<Series>) returns (all: seq<Opportunity>)
    requires cfg.horizon >= 1 && ValidDataset(dataset) && RunOf(cfg, strategy, dataset).Some?
    ensures ListsScans(cfg, strategy, Ordered(dataset), |dataset[0].bars| - cfg.horizon, all)
    ensures Complete(cfg, strategy, Ordered(dataset), RunOf(cfg, strategy, dataset).value, all)
  {
    OrderedDistinct(dataset);
    all := ScansListed(cfg, strategy, Ordered(dataset), |dataset[0].bars| - cfg.horizon,
                       RunOf(cfg, strategy, dataset).value);
  }

  /** Every place of every scan from the window up to `end`, once, in order. */
  ghost predicate ListsScans(cfg: Config, strategy: Strategy, series: seq<Series>, end: int, all: seq<Opportunity>) {
    && IsSorted(Precedes, all)
    && forall o :: o in all <==>
         cfg.window <= o.cutoff < end && o.place < |RankedAt(strategy, series, o.cutoff)|
  }

  lemma ScansListed(cfg: Config, strategy: Strategy, series: seq<Series>, end: nat, run: Progress)
    returns (all: seq<Opportunity>)
    requires Long(series, end + cfg.horizon) && cfg.horizon >= 1 && cfg.window <= end && DistinctInstruments(series)
    requires RunCutoffs(cfg, strategy, series, end) == Some(run)
    ensures ListsScans(cfg, strategy, series, end, all) && Complete(cfg, strategy, series, run, all)
  {
    all := OpportunitiesBefore(cfg, strategy, series, end);
    AllOpportunities(cfg, strategy, series, end);
    RunComplete(cfg, strategy, series, end);
  }

  /** A scan that ranks no series twice. */
  predicate RanksOnce(ranked: seq<Ranked>) {
    forall i, j :: 0 <= i < j < |ranked| ==> ranked[i].candidate != ranked[j].candidate
  }

  /** The trade on an approved opportunity is in the run, with its sizing; and where the scan ranks no series twice, it
      is the only trade of that instrument at that cutoff. */
  lemma ApprovalTradedOnce(cfg: Config, strategy: Strategy, dataset: seq<Series>, o: Opportunity) returns (i: nat)
    requires cfg.horizon >= 1 && ValidDataset(dataset) && RunOf(cfg, strategy, dataset).Some?
    requires cfg.window <= o.cutoff < |dataset[0].bars| - cfg.horizon
    requires IsApproved(strategy, Ordered(dataset))(o)
    ensures var trades := RunOf(cfg, strategy, dataset).value.trades;
            && i < |trades| && TradedOn(cfg, strategy, Ordered(dataset), trades[i], o)
            && trades[i].sizing == PlanAt(strategy, Ordered(dataset), o).value.sizing
            && (RanksOnce(RankedAt(strategy, Ordered(dataset), o.cutoff)) ==>
                  forall j :: 0 <= j < |trades| && SameSlot(trades[j], trades[i]) ==> j == i)
  {
    var series, run := Ordered(dataset), RunOf(cfg, strategy, dataset).value;
    var all := EveryApprovalTraded(cfg, strategy, dataset);
    OrderedDistinct(dataset);
    OrderedRises(dataset);
    i := ListedTrade(cfg, strategy, series, run, all, o);
    if RanksOnce(RankedAt(strategy, series, o.cutoff)) {
      forall j | 0 <= j < |run.trades| && SameSlot(run.trades[j], run.trades[i])
        ensures j == i
      {
        OnlyTrade(cfg, strategy, series, run, all, o, i, j);
      }
    }
  }

  /** Trades of one instrument decided at one cutoff. */
  predicate SameSlot(s: Trade, t: Trade) {
    s.source.instrument == t.source.instrument && s.source.cutoff == t.source.cutoff
  }

  lemma ListedTrade(cfg: Config, strategy: Strategy, series: seq<Series>, run: Progress, all: seq<Opportunity>,
                    o: Opportunity) returns (i: nat)
    requires Complete(cfg, strategy, series, run, all) && o in all && IsApproved(strategy, series)(o)
    ensures var approved := Filter(IsApproved(strategy, series), all);
            i < |run.trades| == |approved| && approved[i] == o && TradedOn(cfg, strategy, series, run.trades[i], o)
    ensures run.trades[i].sizing == PlanAt(strategy, series, o).value.sizing
  {
    var approved, planned := Filter(IsApproved(strategy, series), all), Filter(IsPlanned(strategy, series), all);
    assert o in approved;
    i :| 0 <= i < |approved| && approved[i] == o;
    assert TradeListed(cfg, strategy, series, run.trades[i], approved[i], all, planned);
    PlannedSizing(cfg, strategy, series, run.trades[i], o);
  }

  lemma PlannedSizing(cfg: Config, strategy: Strategy, series: seq<Series>, t: Trade, o: Opportunity)
    requires TradedOn(cfg, strategy, series, t, o)
    ensures PlanAt(strategy, series, o) == Some(ApprovedPosition(t.sizing))
  {
  }

  /** Every series has ever later bars. */
  ghost predicate BarsRise(series: seq<Series>) {
    forall f, k, l :: 0 <= f < |series| && 0 <= k < l < |series[f].bars| ==>
      series[f].bars[k].timestamp < series[f].bars[l].timestamp
  }

  lemma OrderedRises(dataset: seq<Series>)
    requires ValidDataset(dataset)
    ensures BarsRise(Ordered(dataset))
  {
    var series := Ordered(dataset);
    forall f | 0 <= f < |series|
      ensures series[f] in dataset
    {
      InSort(SeriesLeq, dataset, series[f]);
    }
  }

  lemma OnlyTrade(cfg: Config, strategy: Strategy, series: seq<Series>, run: Progress, all: seq<Opportunity>,
                  o: Opportunity, i: nat, j: nat)
    requires Complete(cfg, strategy, series, run, all) && IsSorted(Precedes, all) && BarsRise(series)
    requires DistinctInstruments(series) && RanksOnce(RankedAt(strategy, series, o.cutoff))
    requires i < |run.trades| && j < |run.trades| && |run.trades| == |Filter(IsApproved(strategy, series), all)|
    requires Filter(IsApproved(strategy, series), all)[i] == o
    requires SameSlot(run.trades[j], run.trades[i])
    ensures j == i
  {
    var approved, planned := Filter(IsApproved(strategy, series), all), Filter(IsPlanned(strategy, series), all);
    assert TradeListed(cfg, strategy, series, run.trades[i], approved[i], all, planned);
    assert TradeListed(cfg, strategy, series, run.trades[j], approved[j], all, planned);
    SameOpportunity(cfg, strategy, series, run.trades[i], run.trades[j], approved[i], approved[j]);
    FilterKeepsOrder(Precedes, IsApproved(strategy, series), all);
    ListedOnce(approved, i, j);
  }

  lemma ListedOnce(s: seq<Opportunity>, i: nat, j: nat)
    requires IsSorted(Precedes, s) && i < |s| && j < |s| && s[i] == s[j]
    ensures i == j
  {
  }

  lemma SameOpportunity(cfg: Config, strategy: Strategy, series: seq<Series>, s: Trade, t: Trade, o: Opportunity,
                        p: Opportunity)
    requires TradedOn(cfg, strategy, series, s, o) && TradedOn(cfg, strategy, series, t, p)
    requires BarsRise(series) && DistinctInstruments(series) && RanksOnce(RankedAt(strategy, series, o.cutoff))
    requires SameSlot(t, s)
    ensures o == p
  {
    var f := RankedAt(strategy, series, o.cutoff)[o.place].candidate;
    var g := RankedAt(strategy, series, p.cutoff)[p.place].candidate;
    assert f == g;
    OneMoment(series, f, o.cutoff, p.cutoff);
  }

  lemma OneMoment(series: seq<Series>, f: nat, c: nat, d: nat)
    requires BarsRise(series) && f < |series| && c < |series[f].bars| && d < |series[f].bars|
    requires series[f].bars[c].timestamp == series[f].bars[d].timestamp
    ensures c == d
  {
  }

  /** The series are worked off by ascending instrument, none left out. */
  lemma InInstrumentOrder(dataset: seq<Series>)
    requires ValidDataset(dataset)
    ensures var series := Ordered(dataset);
            && multiset(series) == multiset(dataset)
            && forall f, g :: 0 <= f < g < |series| ==> series[f].instrument < series[g].instrument
  {
    var series := Ordered(dataset);
    SortSorted(SeriesLeq, dataset);
    OrderedDistinct(dataset);
    forall f, g | 0 <= f < g < |series|
      ensures series[f].instrument < series[g].instrument
    {
      assert SeriesLeq(series[f], series[g]) && series[f].instrument != series[g].instrument;
    }
  }

  // ----- when a run finishes -----

  /** A candidate that exists and that the planners decide about. */
  predicate Decidable(strategy: Strategy, series: seq<Series>, o: Opportunity) {
    var ranked := RankedAt(strategy, series, o.cutoff);
    o.place < |ranked| && ranked[o.place].candidate < |series| && PlanAt(strategy, series, o).Some?
  }

  ghost predicate ScanDecidable(strategy: Strategy, series: seq<Series>, c: nat) {
    && strategy.scan(Truncate(series, c + 1)).Some?
    && AllDecidable(strategy, series, c, |RankedAt(strategy, series, c)|)
  }

  /** Nothing raises up to `end`: every scan and every plan answers, and no local reference needs a fifth digit. */
  ghost predicate Feasible(cfg: Config, strategy: Strategy, series: seq<Series>, end: nat) {
    && (forall c: nat :: cfg.window <= c < end ==> ScanDecidable(strategy, series, c))
    && (cfg.window < end ==>
          (end - cfg.window) * |series| <= 9999 && end - cfg.window <= 9999
          && |OpportunitiesBefore(cfg, strategy, series, end)| <= 9999)
  }

  /** An approved position always becomes a trade: its series is there and the scan ranked it. */
  lemma TradeExists(cfg: Config, strategy: Strategy, series: seq<Series>, at: Cutoff, st: Progress, k: nat,
                    sizing: Sizing)
    requires Long(series, at.index + 1 + cfg.horizon) && cfg.horizon >= 1 && k < |at.ranked|
    requires DistinctInstruments(series) && Observed(cfg, strategy, series, at)
    requires at.ranked[k].candidate < |series|
    ensures NewTrade(cfg, series, at, st, at.ranked[k].candidate, sizing).Some?
  {
    var f := at.ranked[k].candidate;
    WindowEnds(series, at.index, f);
    OwnHorizon(cfg, series, at.index, f);
    assert Names(at.ranked[k], at.windows, at.windows[f].instrument);
  }

  lemma AdvanceFinishes(st: Progress, verdict: Option<Verdict>, trade: Option<Trade>)
    requires CountersAgree(st)
    ensures var r := Advance(st, verdict, trade);
            && (r.Some? <==> && st.tradePlans < 9999 && verdict.Some?
                             && (verdict.value.ApprovedPosition? ==> trade.Some?))
            && (r.Some? ==> r.value.tradePlans == st.tradePlans + 1)
  {
  }

  lemma StepFinishes(cfg: Config, strategy: Strategy, series: seq<Series>, at: Cutoff, st: Progress, k: nat)
    requires Long(series, at.index + 1 + cfg.horizon) && cfg.horizon >= 1 && k < |at.ranked|
    requires DistinctInstruments(series) && Within(cfg, strategy, series, at, st.candidates, st)
    ensures var r := StepRanked(cfg, strategy, series, at, st, k);
            && (r.Some? <==> Decidable(strategy, series, Opportunity(at.index, k)) && st.tradePlans < 9999)
            && (r.Some? ==> r.value.tradePlans == st.tradePlans + 1)
  {
    var f := at.ranked[k].candidate;
    var verdict := strategy.plan(at.windows, f);
    DecidableHere(cfg, strategy, series, at, k);
    if f < |series| {
      AdvanceFinishes(st, verdict, TradeFor(cfg, series, at, st, f, verdict));
      if verdict.Some? && verdict.value.ApprovedPosition? {
        TradeExists(cfg, strategy, series, at, Sized(st), k, verdict.value.sizing);
      }
    }
  }

  lemma DecidableHere(cfg: Config, strategy: Strategy, series: seq<Series>, at: Cutoff, k: nat)
    requires k < |at.ranked| && Observed(cfg, strategy, series, at)
    ensures |at.windows| == |series|
    ensures Decidable(strategy, series, Opportunity(at.index, k))
       <==> at.ranked[k].candidate < |series| && strategy.plan(at.windows, at.ranked[k].candidate).Some?
  {
  }

  predicate AllDecidable(strategy: Strategy, series: seq<Series>, c: nat, n: nat) {
    forall k: nat :: k < n ==> Decidable(strategy, series, Opportunity(c, k))
  }

  lemma DecidableNext(strategy: Strategy, series: seq<Series>, c: nat, n: nat)
    ensures AllDecidable(strategy, series, c, n + 1)
       <==> AllDecidable(strategy, series, c, n) && Decidable(strategy, series, Opportunity(c, n))
  {
  }

  lemma FoldFinishesOne(cfg: Config, strategy: Strategy, series: seq<Series>, at: Cutoff, st: Progress,
                        before: Progress, k: nat)
    requires Long(series, at.index + 1 + cfg.horizon) && cfg.horizon >= 1 && k < |at.ranked|
    requires DistinctInstruments(series) && Within(cfg, strategy, series, at, before.candidates, before)
    requires FoldRanked(cfg, strategy, series, at, st, k) == Some(before)
    ensures var r := FoldRanked(cfg, strategy, series, at, st, k + 1);
            && (r.Some? <==> Decidable(strategy, series, Opportunity(at.index, k)) && before.tradePlans < 9999)
            && (r.Some? ==>
                  && Within(cfg, strategy, series, at, before.candidates, r.value)
                  && r.value.tradePlans == before.tradePlans + 1)
  {
    FoldNext(cfg, strategy, series, at, st, before, k);
    StepAccounted(cfg, strategy, series, at, before, k);
    StepFinishes(cfg, strategy, series, at, before, k);
  }

  lemma {:induction false} FoldFinishes(cfg: Config, strategy: Strategy, series: seq<Series>, at: Cutoff,
                                        st: Progress, n: nat)
    requires Long(series, at.index + 1 + cfg.horizon) && cfg.horizon >= 1 && n <= |at.ranked|
    requires DistinctInstruments(series) && Within(cfg, strategy, series, at, st.candidates, st)
    ensures var r := FoldRanked(cfg, strategy, series, at, st, n);
            && (r.Some? <==> AllDecidable(strategy, series, at.index, n) && st.tradePlans + n <= 9999)
            && (r.Some? ==>
                  Within(cfg, strategy, series, at, st.candidates, r.value)
                  && r.value.tradePlans == st.tradePlans + n)
  {
    if n == 0 {
    } else {
      FoldFinishes(cfg, strategy, series, at, st, n - 1);
      DecidableNext(strategy, series, at.index, n - 1);
      var before := FoldRanked(cfg, strategy, series, at, st, n - 1);
      if before.Some? {
        FoldFinishesOne(cfg, strategy, series, at, st, before.value, n - 1);
      }
    }
  }

  lemma CutoffFinishes(cfg: Config, strategy: Strategy, series: seq<Series>, st: Progress, index: nat)
    requires Long(series, index + 1 + cfg.horizon) && cfg.horizon >= 1 && DistinctInstruments(series)
    requires Between(cfg, strategy, series, st, index)
    ensures StepCutoff(cfg, strategy, series, st, index).Some?
       <==> && st.candidates + |series| <= 9999 && st.scans < 9999 && ScanDecidable(strategy, series, index)
            && st.tradePlans + |RankedAt(strategy, series, index)| <= 9999
  {
    if strategy.scan(Truncate(series, index + 1)).Some? {
      var ranked := RankedAt(strategy, series, index);
      var scanned := st.(candidates := st.candidates + |series|, scans := st.scans + 1);
      var at := Cutoff(index, Truncate(series, index + 1), ranked, st.candidates);
      ScanWithin(cfg, strategy, series, st, index, ranked);
      FoldFinishes(cfg, strategy, series, at, scanned, |ranked|);
    }
  }

  lemma {:induction false} RunFinishes(cfg: Config, strategy: Strategy, series: seq<Series>, end: nat)
    requires Long(series, end + cfg.horizon) && cfg.horizon >= 1 && cfg.window <= end && DistinctInstruments(series)
    ensures RunCutoffs(cfg, strategy, series, end).Some? <==> Feasible(cfg, strategy, series, end)
  {
    if end == cfg.window {
    } else {
      RunFinishes(cfg, strategy, series, end - 1);
      if RunCutoffs(cfg, strategy, series, end - 1).Some? {
        OneFinishesMore(cfg, strategy, series, end - 1);
      } else if Feasible(cfg, strategy, series, end) {
        FeasibleEarlier(cfg, strategy, series, end - 1);
      }
    }
  }

  lemma OneFinishesMore(cfg: Config, strategy: Strategy, series: seq<Series>, index: nat)
    requires Long(series, index + 1 + cfg.horizon) && cfg.horizon >= 1 && cfg.window <= index
    requires DistinctInstruments(series) && Feasible(cfg, strategy, series, index)
    requires RunCutoffs(cfg, strategy, series, index).Some?
    ensures RunCutoffs(cfg, strategy, series, index + 1).Some? <==> Feasible(cfg, strategy, series, index + 1)
  {
    var st := RunCutoffs(cfg, strategy, series, index).value;
    RunNext(cfg, strategy, series, index, st);
    RunAccounted(cfg, strategy, series, index);
    RunComplete(cfg, strategy, series, index);
    CutoffFinishes(cfg, strategy, series, st, index);
    FeasibleNext(cfg, strategy, series, st, index);
  }

  lemma FeasibleEarlier(cfg: Config, strategy: Strategy, series: seq<Series>, index: nat)
    requires cfg.window <= index && Feasible(cfg, strategy, series, index + 1)
    ensures Feasible(cfg, strategy, series, index)
  {
    var n := index - cfg.window;
    assert (n + 1) * |series| == n * |series| + |series|;
  }

  lemma FeasibleNext(cfg: Config, strategy: Strategy, series: seq<Series>, st: Progress, index: nat)
    requires cfg.window <= index && Feasible(cfg, strategy, series, index) && Numbered(cfg, series, st, index)
    requires st.tradePlans == |OpportunitiesBefore(cfg, strategy, series, index)|
    ensures Feasible(cfg, strategy, series, index + 1)
       <==> && st.candidates + |series| <= 9999 && st.scans < 9999 && ScanDecidable(strategy, series, index)
            && st.tradePlans + |RankedAt(strategy, series, index)| <= 9999
  {
    var n := index - cfg.window;
    assert (n + 1) * |series| == n * |series| + |series|;
    assert |OpportunitiesBefore(cfg, strategy, series, index + 1)|
        == st.tradePlans + |RankedAt(strategy, series, index)|;
  }

  /** A run over a valid dataset finishes exactly when the window is not empty, there are enough bars, every scan and
      every plan answers, and none of the local references needs a fifth digit. */
  lemma FinishesExactly(cfg: Config, strategy: Strategy, dataset: seq<Series>)
    requires cfg.horizon >= 1 && ValidDataset(dataset)
    ensures RunOf(cfg, strategy, dataset).Some?
       <==> && cfg.window >= 1 && |dataset[0].bars| > cfg.window + cfg.horizon
            && Feasible(cfg, strategy, Ordered(dataset), |dataset[0].bars| - cfg.horizon)
  {
    OrderedDistinct(dataset);
    FinishesFor(cfg, strategy, dataset, |dataset[0].bars|);
  }

  lemma FinishesFor(cfg: Config, strategy: Strategy, dataset: seq<Series>, bars: nat)
    requires cfg.horizon >= 1 && dataset != [] && Long(dataset, bars) && bars == |dataset[0].bars|
    requires DistinctInstruments(Ordered(dataset))
    ensures RunOf(cfg, strategy, dataset).Some?
       <==> && cfg.window >= 1 && bars > cfg.window + cfg.horizon
            && Feasible(cfg, strategy, Ordered(dataset), bars - cfg.horizon)
  {
    if bars > cfg.window + cfg.horizon {
      RunFinishes(cfg, strategy, Ordered(dataset), bars - cfg.horizon);
    }
  }
}
