/** Simulating one approved position over the bars of its holding horizon, and drawdown over a run's trades.

    Prices and amounts are exact reals. Instruments and local references are numbers. */
module TradeSimulation {
  import opened Wrappers
  import opened Sorting

  type Instrument = int

  datatype Bar = Bar(timestamp: int, open: real, high: real, low: real, close: real, volume: nat)

  predicate ValidBar(b: Bar) {
    && b.open > 0.0 && b.high > 0.0 && b.low > 0.0 && b.close > 0.0
    && b.low <= b.open <= b.high && b.low <= b.close <= b.high
  }

  datatype CostModel = CostModel(entrySlippageBps: real, exitSlippageBps: real, commissionPerSide: real)

  /** The prices, size and risk an approved position plan carries, as its constructors admit them. */
  datatype SizingData = SizingData(entry: real, stop: real, target: real, quantity: nat, risk: real)

  type Sizing = s: SizingData | s.stop < s.entry < s.target && s.quantity >= 1 && s.risk > 0.0
    witness SizingData(2.0, 1.0, 3.0, 1, 1.0)

  datatype Outcome = TargetHit | StopHit | TimeExit | NoEntry

  /** What an executed trade did. */
  datatype Execution = Execution(
    entryTimestamp: int,
    entryPrice: real,
    exitTimestamp: int,
    exitPrice: real,
    holdingBars: nat)

  /** Where in the run a trade comes from: its sequence number and the local references of its sources. */
  datatype Provenance = Provenance(
    sequence: nat,
    instrument: Instrument,
    cutoff: int,
    scan: nat,
    candidate: nat,
    tradePlan: nat,
    positionPlan: nat,
    rank: nat,
    score: real)

  datatype Trade = Trade(
    source: Provenance,
    sizing: Sizing,
    outcome: Outcome,
    execution: Option<Execution>,
    ambiguous: bool,
    grossPnl: real,
    costs: real,
    netPnl: real,
    rMultiple: Option<real>)

  // ----- one trade -----

  predicate StopTouched(b: Bar, sizing: Sizing) {
    b.low <= sizing.stop
  }

  predicate TargetTouched(b: Bar, sizing: Sizing) {
    b.high >= sizing.target
  }

  predicate Touched(b: Bar, sizing: Sizing) {
    StopTouched(b, sizing) || TargetTouched(b, sizing)
  }

  /** The first bar that touches stop or target, or the number of bars. */
  function FirstTouch(bars: seq<Bar>, sizing: Sizing): (i: nat)
    ensures i <= |bars| && (i < |bars| ==> Touched(bars[i], sizing))
    ensures forall j :: 0 <= j < i ==> !Touched(bars[j], sizing)
  {
    if bars == [] || Touched(bars[0], sizing) then 0 else 1 + FirstTouch(bars[1..], sizing)
  }

  function NetCosts(quantity: nat, entryPrice: real, exitPrice: real, model: CostModel): real {
    var entrySlippage := entryPrice * (model.entrySlippageBps / 10000.0);
    var exitSlippage := exitPrice * (model.exitSlippageBps / 10000.0);
    entrySlippage * quantity as real + exitSlippage * quantity as real + model.commissionPerSide * 2.0
  }

  function Unexecuted(source: Provenance, sizing: Sizing): Trade {
    Trade(source, sizing, NoEntry, None, false, 0.0, 0.0, 0.0, None)
  }

  function Executed(source: Provenance, sizing: Sizing, model: CostModel, first: Bar, exit: Bar, exitPrice: real,
                    outcome: Outcome, ambiguous: bool, holdingBars: nat): Trade {
    var gross := (exitPrice - first.open) * sizing.quantity as real;
    var costs := NetCosts(sizing.quantity, first.open, exitPrice, model);
    Trade(source, sizing, outcome,
          Some(Execution(first.timestamp, first.open, exit.timestamp, exitPrice, holdingBars)),
          ambiguous, gross, costs, gross - costs, Some((gross - costs) / sizing.risk))
  }

  /** The specification of `SimulateTrade`: no entry if the first open is at or beyond a level; otherwise exit at
      the first touch, the stop winning ties; otherwise at the last close. */
  function Simulated(source: Provenance, sizing: Sizing, model: CostModel, bars: seq<Bar>): Trade
    requires bars != []
  {
    if bars[0].open <= sizing.stop || bars[0].open >= sizing.target then Unexecuted(source, sizing)
    else
      var i := FirstTouch(bars, sizing);
      if i == |bars| then
        Executed(source, sizing, model, bars[0], bars[i - 1], bars[i - 1].close, TimeExit, false, i)
      else if StopTouched(bars[i], sizing) then
        Executed(source, sizing, model, bars[0], bars[i], sizing.stop, StopHit, TargetTouched(bars[i], sizing), i + 1)
      else
        Executed(source, sizing, model, bars[0], bars[i], sizing.target, TargetHit, false, i + 1)
  }

  lemma {:induction false} FirstTouchIs(bars: seq<Bar>, sizing: Sizing, i: nat)
    requires i <= |bars| && (i < |bars| ==> Touched(bars[i], sizing))
    requires forall j :: 0 <= j < i ==> !Touched(bars[j], sizing)
    ensures FirstTouch(bars, sizing) == i
  {
    if i == 0 {
    } else {
      FirstTouchIs(bars[1..], sizing, i - 1);
    }
  }

  method SimulateTrade(source: Provenance, sizing: Sizing, model: CostModel, bars: seq<Bar>) returns (trade: Trade)
    requires bars != []
    ensures trade == Simulated(source, sizing, model, bars)
  {
    var first := bars[0];
    if first.open <= sizing.stop || first.open >= sizing.target {
      return Unexecuted(source, sizing);
    }
    var ambiguous := false;
    var exitPrice, exitBar, outcome, holdingBars := bars[|bars| - 1].close, bars[|bars| - 1], TimeExit, |bars|;
    var i := 0;
    while i < |bars|
      invariant 0 <= i <= |bars|
      invariant forall j :: 0 <= j < i ==> !Touched(bars[j], sizing)
      invariant exitPrice == bars[|bars| - 1].close && exitBar == bars[|bars| - 1]
      invariant outcome == TimeExit && holdingBars == |bars| && !ambiguous
    {
      var bar := bars[i];
      var stopHit, targetHit := StopTouched(bar, sizing), TargetTouched(bar, sizing);
      if stopHit && targetHit {
        ambiguous := true;
        exitPrice, exitBar, outcome, holdingBars := sizing.stop, bar, StopHit, i + 1;
        break;
      }
      if stopHit {
        exitPrice, exitBar, outcome, holdingBars := sizing.stop, bar, StopHit, i + 1;
        break;
      }
      if targetHit {
        exitPrice, exitBar, outcome, holdingBars := sizing.target, bar, TargetHit, i + 1;
        break;
      }
      i := i + 1;
    }
    FirstTouchIs(bars, sizing, i);
    trade := Executed(source, sizing, model, first, exitBar, exitPrice, outcome, ambiguous, holdingBars);
  }

  lemma Scaled(x: real, y: real, q: real)
    requires x <= y && q >= 0.0
    ensures x * q <= y * q
  {
  }

  /** The exit price lies between the levels, and the gross result between theirs. */
  predicate WithinLevels(t: Trade) {
    t.execution.Some? ==>
      var x, q := t.execution.value, t.sizing.quantity as real;
      && t.sizing.stop <= x.exitPrice <= t.sizing.target
      && (t.sizing.stop - x.entryPrice) * q <= t.grossPnl <= (t.sizing.target - x.entryPrice) * q
  }

  lemma ExecutedWithinLevels(source: Provenance, sizing: Sizing, model: CostModel, first: Bar, exit: Bar,
                             exitPrice: real, outcome: Outcome, ambiguous: bool, holdingBars: nat)
    requires sizing.stop <= exitPrice <= sizing.target
    ensures WithinLevels(Executed(source, sizing, model, first, exit, exitPrice, outcome, ambiguous, holdingBars))
  {
    Scaled(sizing.stop - first.open, exitPrice - first.open, sizing.quantity as real);
    Scaled(exitPrice - first.open, sizing.target - first.open, sizing.quantity as real);
  }

  /** Every executed trade exits between its stop and its target, strictly inside on a time exit, so its gross
      result is bounded by the two levels. */
  lemma TradeBounds(source: Provenance, sizing: Sizing, model: CostModel, bars: seq<Bar>)
    requires bars != [] && forall i :: 0 <= i < |bars| ==> ValidBar(bars[i])
    ensures var t := Simulated(source, sizing, model, bars);
            && WithinLevels(t) && (t.execution == None <==> t.outcome == NoEntry)
            && (t.outcome == TimeExit ==> sizing.stop < t.execution.value.exitPrice < sizing.target)
  {
    var i := FirstTouch(bars, sizing);
    if i == |bars| {
      var last := bars[i - 1];
      assert ValidBar(last) && !Touched(last, sizing);
      ExecutedWithinLevels(source, sizing, model, bars[0], last, last.close, TimeExit, false, i);
    } else {
      var both := TargetTouched(bars[i], sizing);
      ExecutedWithinLevels(source, sizing, model, bars[0], bars[i], sizing.stop, StopHit, both, i + 1);
      ExecutedWithinLevels(source, sizing, model, bars[0], bars[i], sizing.target, TargetHit, false, i + 1);
    }
  }

  /** `h` bars were held: none before the last touched a level, and the last one decided the outcome, the stop
      winning ties. */
  predicate ExitsAt(t: Trade, bars: seq<Bar>, h: nat) {
    && 1 <= h <= |bars|
    && (forall j :: 0 <= j < h - 1 ==> t.sizing.stop < bars[j].low && bars[j].high < t.sizing.target)
    && (t.outcome == StopHit <==> bars[h - 1].low <= t.sizing.stop)
    && (t.outcome == TargetHit <==> bars[h - 1].high >= t.sizing.target && bars[h - 1].low > t.sizing.stop)
    && (t.outcome == TimeExit ==> h == |bars|)
    && (t.ambiguous <==> bars[h - 1].low <= t.sizing.stop && bars[h - 1].high >= t.sizing.target)
  }

  /** A trade enters at the first open unless that is at or beyond a level, and exits at the first bar of its
      horizon that touches one. */
  lemma ExitsAtFirstTouch(source: Provenance, sizing: Sizing, model: CostModel, bars: seq<Bar>)
    requires bars != []
    ensures var t := Simulated(source, sizing, model, bars);
            && t.source == source && t.sizing == sizing
            && (t.outcome == NoEntry <==> bars[0].open <= sizing.stop || bars[0].open >= sizing.target)
            && (t.outcome != NoEntry ==>
                  && t.execution.Some? && ExitsAt(t, bars, t.execution.value.holdingBars)
                  && t.execution.value.entryPrice == bars[0].open
                  && t.execution.value.entryTimestamp == bars[0].timestamp
                  && t.execution.value.exitTimestamp == bars[t.execution.value.holdingBars - 1].timestamp)
  {
  }

  /** A stop is paid at the stop, a target at the target, and a time exit at the last close. */
  predicate PaidAsDecided(t: Trade, bars: seq<Bar>)
    requires t.execution.Some? && bars != []
  {
    var price := t.execution.value.exitPrice;
    && (t.outcome == StopHit ==> price == t.sizing.stop) && (t.outcome == TargetHit ==> price == t.sizing.target)
    && (t.outcome == TimeExit ==> price == bars[|bars| - 1].close)
  }

  /** Gross is the price difference times the quantity; costs are two commissions and the slippage on both sides, in
      ten-thousandths; net is their difference; and the multiple is net over the planned risk. */
  predicate Settled(t: Trade, model: CostModel)
    requires t.execution.Some?
  {
    var x, q := t.execution.value, t.sizing.quantity as real;
    && t.grossPnl == (x.exitPrice - x.entryPrice) * q
    && 10000.0 * (t.costs - 2.0 * model.commissionPerSide)
       == q * (x.entryPrice * model.entrySlippageBps + x.exitPrice * model.exitSlippageBps)
    && t.netPnl == t.grossPnl - t.costs
    && t.rMultiple.Some? && t.rMultiple.value * t.sizing.risk == t.netPnl
  }

  lemma QuotientTimes(x: real, r: real)
    requires r != 0.0
    ensures (x / r) * r == x
  {
  }

  lemma SlippageTotal(quantity: real, entry: real, exit: real, entryBps: real, exitBps: real)
    ensures 10000.0 * (entry * (entryBps / 10000.0) * quantity + exit * (exitBps / 10000.0) * quantity)
         == quantity * (entry * entryBps + exit * exitBps)
  {
    OneSide(quantity, entry, entryBps);
    OneSide(quantity, exit, exitBps);
  }

  lemma OneSide(quantity: real, price: real, bps: real)
    ensures 10000.0 * (price * (bps / 10000.0) * quantity) == quantity * (price * bps)
  {
    var share := bps / 10000.0;
    assert bps == 10000.0 * share;
    assert price * (10000.0 * share) == 10000.0 * (price * share);
    assert quantity * (10000.0 * (price * share)) == 10000.0 * ((price * share) * quantity);
  }

  lemma ExecutedSettled(source: Provenance, sizing: Sizing, model: CostModel, first: Bar, exit: Bar, exitPrice: real,
                        outcome: Outcome, ambiguous: bool, holdingBars: nat)
    ensures Settled(Executed(source, sizing, model, first, exit, exitPrice, outcome, ambiguous, holdingBars), model)
  {
    var t := Executed(source, sizing, model, first, exit, exitPrice, outcome, ambiguous, holdingBars);
    SlippageTotal(sizing.quantity as real, first.open, exitPrice, model.entrySlippageBps, model.exitSlippageBps);
    QuotientTimes(t.netPnl, sizing.risk);
  }

  /** What an executed trade is paid and what it comes to; a trade never entered comes to nothing. */
  lemma TradeSettled(source: Provenance, sizing: Sizing, model: CostModel, bars: seq<Bar>)
    requires bars != []
    ensures var t := Simulated(source, sizing, model, bars);
            && (t.execution.Some? <==> t.outcome != NoEntry)
            && (t.execution.Some? ==> PaidAsDecided(t, bars) && Settled(t, model))
            && (t.execution == None ==>
                  t.grossPnl == t.costs == t.netPnl == 0.0 && t.rMultiple == None && !t.ambiguous)
  {
    var i := FirstTouch(bars, sizing);
    if i == |bars| {
      ExecutedSettled(source, sizing, model, bars[0], bars[i - 1], bars[i - 1].close, TimeExit, false, i);
    } else {
      var both := TargetTouched(bars[i], sizing);
      ExecutedSettled(source, sizing, model, bars[0], bars[i], sizing.stop, StopHit, both, i + 1);
      ExecutedSettled(source, sizing, model, bars[0], bars[i], sizing.target, TargetHit, false, i + 1);
    }
  }

  // ----- drawdown -----

  predicate WasExecuted(t: Trade) {
    t.outcome != NoEntry
  }

  function ExitTime(t: Trade): int {
    match t.execution
    case Some(x) => x.exitTimestamp
    case None => 0
  }

  /** `(exit_timestamp, trade_sequence)`, compared. */
  predicate ExitLeq(a: Trade, b: Trade) {
    ExitTime(a) < ExitTime(b) || (ExitTime(a) == ExitTime(b) && a.source.sequence <= b.source.sequence)
  }

  function ExecutedInOrder(trades: seq<Trade>): seq<Trade> {
    Sort(ExitLeq, Filter(WasExecuted, trades))
  }

  /** The drawdown is taken over the executed trades, by exit time, sequence numbers deciding ties. */
  lemma InExitOrder(trades: seq<Trade>)
    ensures var s := ExecutedInOrder(trades);
            && multiset(s) == multiset(Filter(WasExecuted, trades))
            && (forall t :: t in s <==> t in trades && t.outcome != NoEntry)
            && forall i, j :: 0 <= i < j < |s| ==>
                 ExitTime(s[i]) < ExitTime(s[j])
                 || (ExitTime(s[i]) == ExitTime(s[j]) && s[i].source.sequence <= s[j].source.sequence)
  {
    var s, executed := ExecutedInOrder(trades), Filter(WasExecuted, trades);
    ExitOrderIsTotal();
    SortSorted(ExitLeq, executed);
    SameMembers(s, executed);
    forall i, j | 0 <= i < j < |s|
      ensures ExitTime(s[i]) < ExitTime(s[j])
              || (ExitTime(s[i]) == ExitTime(s[j]) && s[i].source.sequence <= s[j].source.sequence)
    {
      assert ExitLeq(s[i], s[j]);
    }
  }

  /** Cumulated net result after the first `n` trades. */
  function Cumulated(trades: seq<Trade>, n: nat): real
    requires n <= |trades|
  {
    if n == 0 then 0.0 else Cumulated(trades, n - 1) + trades[n - 1].netPnl
  }

  /** `d` is the largest fall from an earlier cumulated result to a later one, the start included. */
  ghost predicate IsMaxDrawdown(trades: seq<Trade>, d: real) {
    && (forall i, j :: 0 <= i <= j <= |trades| ==> Cumulated(trades, i) - Cumulated(trades, j) <= d)
    && (exists i, j :: 0 <= i <= j <= |trades| && Cumulated(trades, i) - Cumulated(trades, j) == d)
  }

  /** The highest cumulated result up to `n`, and the deepest fall below such a high. */
  function Peak(trades: seq<Trade>, n: nat): real
    requires n <= |trades|
  {
    if n == 0 then 0.0
    else
      var earlier, now := Peak(trades, n - 1), Cumulated(trades, n);
      if now > earlier then now else earlier
  }

  function Deepest(trades: seq<Trade>, n: nat): real
    requires n <= |trades|
  {
    if n == 0 then 0.0
    else
      var earlier, now := Deepest(trades, n - 1), Peak(trades, n) - Cumulated(trades, n);
      if now > earlier then now else earlier
  }

  lemma {:induction false} PeakIsHighest(trades: seq<Trade>, n: nat)
    requires n <= |trades|
    ensures forall i :: 0 <= i <= n ==> Cumulated(trades, i) <= Peak(trades, n)
    ensures exists i :: 0 <= i <= n && Cumulated(trades, i) == Peak(trades, n)
  {
    if n == 0 {
      assert Cumulated(trades, 0) == Peak(trades, 0);
    } else {
      PeakIsHighest(trades, n - 1);
    }
  }

  lemma {:induction false} DeepestBounds(trades: seq<Trade>, n: nat, i: nat, j: nat)
    requires i <= j <= n <= |trades|
    ensures Cumulated(trades, i) - Cumulated(trades, j) <= Deepest(trades, n)
  {
    if j == n {
      PeakIsHighest(trades, n);
    } else {
      DeepestBounds(trades, n - 1, i, j);
    }
  }

  lemma {:induction false} DeepestReached(trades: seq<Trade>, n: nat) returns (i: nat, j: nat)
    requires n <= |trades|
    ensures i <= j <= n && Cumulated(trades, i) - Cumulated(trades, j) == Deepest(trades, n)
  {
    if n == 0 {
      i, j := 0, 0;
    } else if Deepest(trades, n) == Deepest(trades, n - 1) {
      i, j := DeepestReached(trades, n - 1);
    } else {
      PeakIsHighest(trades, n);
      i :| 0 <= i <= n && Cumulated(trades, i) == Peak(trades, n);
      j := n;
    }
  }

  lemma DeepestIsMaxDrawdown(trades: seq<Trade>)
    ensures IsMaxDrawdown(trades, Deepest(trades, |trades|))
  {
    forall i, j | 0 <= i <= j <= |trades|
      ensures Cumulated(trades, i) - Cumulated(trades, j) <= Deepest(trades, |trades|)
    {
      DeepestBounds(trades, |trades|, i, j);
    }
    var i, j := DeepestReached(trades, |trades|);
  }

  /** One pass computes the quadratic maximum. */
  method Drawdown(trades: seq<Trade>) returns (r: Option<real>)
    ensures r == None <==> Filter(WasExecuted, trades) == []
    ensures r.Some? ==> IsMaxDrawdown(ExecutedInOrder(trades), r.value)
  {
    var executed := ExecutedInOrder(trades);
    if executed == [] {
      return None;
    }
    var running, peak, drawdown := 0.0, 0.0, 0.0;
    for n := 0 to |executed|
      invariant running == Cumulated(executed, n) && peak == Peak(executed, n) && drawdown == Deepest(executed, n)
    {
      running := running + executed[n].netPnl;
      if running > peak {
        peak := running;
      }
      if peak - running > drawdown {
        drawdown := peak - running;
      }
    }
    DeepestIsMaxDrawdown(executed);
    return Some(drawdown);
  }

  lemma ExitOrderIsTotal()
    ensures TotalPreorder(ExitLeq)
  {
  }

  /** The drawdown does not depend on the order in which the trades are listed. */
  lemma DrawdownIgnoresOrder(a: seq<Trade>, b: seq<Trade>, d: real)
    requires multiset(a) == multiset(b)
    requires forall x, y :: x in a && y in a && x.source.sequence == y.source.sequence ==> x == y
    ensures IsMaxDrawdown(ExecutedInOrder(a), d) <==> IsMaxDrawdown(ExecutedInOrder(b), d)
  {
    FilterMultiset(WasExecuted, a, b);
    ExitOrderIsTotal();
    SortPermutation(ExitLeq, Filter(WasExecuted, a), Filter(WasExecuted, b));
  }

  /** There is only one such maximum, and it is never negative. */
  lemma MaxDrawdownUnique(trades: seq<Trade>, d: real, e: real)
    requires IsMaxDrawdown(trades, d) && IsMaxDrawdown(trades, e)
    ensures d == e >= 0.0
  {
  }
}
