/** Deriving a split-adjusted series from a raw one: every price times the price factor, rounded to the quantum;
    every volume times the volume factor, rounded to whole shares. */
module SplitAdjustment {
  import opened Wrappers
  import opened Sorting
  import opened TradeSimulation
  import opened Backtest
  import opened BacktestTrades
  import Records = CorporateActionRecords
  import opened SplitFactors

  // ----- rounding -----

  /** The nearest integer, ties to the even one. */
  function HalfEven(x: real): int {
    var below := x.Floor;
    var rest := x - below as real;
    if rest < 0.5 || (rest == 0.5 && below % 2 == 0) then below else below + 1
  }

  ghost predicate IsHalfEven(x: real, n: int) {
    && -0.5 <= n as real - x <= 0.5
    && (n as real - x == 0.5 || n as real - x == -0.5 ==> n % 2 == 0)
  }

  /** There is exactly one nearest integer once ties go to the even one, and `HalfEven` is it. */
  lemma HalfEvenIs(x: real, n: int)
    ensures n == HalfEven(x) <==> IsHalfEven(x, n)
  {
    var below := x.Floor;
    assert below as real <= x < below as real + 1.0;
    if IsHalfEven(x, n) {
      assert n as real >= below as real - 0.5 && n as real < below as real + 1.5;
      assert n == below || n == below + 1;
    }
  }

  lemma HalfEvenMonotone(x: real, y: real)
    requires x <= y
    ensures HalfEven(x) <= HalfEven(y)
  {
    HalfEvenIs(x, HalfEven(x));
    HalfEvenIs(y, HalfEven(y));
  }

  /** Prices are kept to four places. */
  const QUANTA: real := 10000.0

  const HALF_QUANTUM: real := 0.00005

  function Quantize(x: real): real {
    HalfEven(x * QUANTA) as real / QUANTA
  }

  lemma QuantizeClose(x: real)
    ensures x - HALF_QUANTUM <= Quantize(x) <= x + HALF_QUANTUM
  {
    HalfEvenIs(x * QUANTA, HalfEven(x * QUANTA));
  }

  lemma QuantizeMonotone(x: real, y: real)
    requires x <= y
    ensures Quantize(x) <= Quantize(y)
  {
    HalfEvenMonotone(x * QUANTA, y * QUANTA);
  }

  /** A positive price rounds to zero exactly when it is at most half a quantum, and never below zero. */
  lemma QuantizeVanishes(x: real)
    requires x > 0.0
    ensures Quantize(x) >= 0.0 && (Quantize(x) == 0.0 <==> x <= HALF_QUANTUM)
  {
    HalfEvenMonotone(0.0, x * QUANTA);
    assert HalfEven(0.0) == 0;
    HalfEvenIs(x * QUANTA, 0);
  }

  /** Whole shares, ties up. */
  function HalfUp(x: real): nat
    requires x >= 0.0
  {
    (x + 0.5).Floor
  }

  // ----- one bar -----

  /** What happens to a price under a factor. */
  function Rescale(factor: real, x: real): real {
    Quantize(x * factor)
  }

  function Rescaled(factor: real): real -> real {
    (x: real) => Rescale(factor, x)
  }

  /** `y` is `x` times the factor, to within half a quantum. */
  predicate Near(y: real, x: real, factor: real) {
    x * factor - HALF_QUANTUM <= y <= x * factor + HALF_QUANTUM
  }

  lemma RescaledNear(x: real, factor: real)
    ensures Near(Rescaled(factor)(x), x, factor)
  {
    assert Rescaled(factor)(x) == Rescale(factor, x);
    QuantizeClose(x * factor);
  }

  ghost predicate Monotone(f: real -> real) {
    forall x, y :: x <= y ==> f(x) <= f(y)
  }

  lemma RescaledMonotone(factor: real)
    requires factor > 0.0
    ensures Monotone(Rescaled(factor))
  {
    forall x: real, y: real | x <= y
      ensures Rescaled(factor)(x) <= Rescaled(factor)(y)
    {
      assert Rescaled(factor)(x) == Rescale(factor, x) && Rescaled(factor)(y) == Rescale(factor, y);
      assert (y - x) * factor >= 0.0;
      QuantizeMonotone(x * factor, y * factor);
    }
  }

  /** The exact price is more than half a quantum. */
  predicate Survives(x: real, factor: real) {
    x * factor > HALF_QUANTUM
  }

  lemma RescaledSurvives(x: real, factor: real)
    requires x > 0.0 && factor > 0.0
    ensures Rescaled(factor)(x) > 0.0 <==> Survives(x, factor)
  {
    assert Rescaled(factor)(x) == Rescale(factor, x);
    assert x * factor > 0.0;
    QuantizeVanishes(x * factor);
  }

  function Repriced(b: Bar, price: real -> real, volume: nat): Bar {
    Bar(b.timestamp, price(b.open), price(b.high), price(b.low), price(b.close), volume)
  }

  /** A monotone change of prices keeps their order, so only a price that is no longer positive can spoil a bar,
      and the low goes first. */
  lemma RepricedValid(b: Bar, price: real -> real, volume: nat)
    requires ValidBar(b) && Monotone(price)
    ensures ValidBar(Repriced(b, price, volume)) <==> price(b.low) > 0.0
  {
  }

  function Shares(volume: nat, factor: real): nat
    requires factor >= 0.0
  {
    var exact := volume as real * factor;
    HalfUp(exact)
  }

  /** The `Bar` constructor refuses prices that are not positive or out of order. */
  function AdjustBar(b: Bar, price: real, volume: real): Option<Bar>
    requires volume >= 0.0
  {
    var adjusted := Repriced(b, Rescaled(price), Shares(b.volume, volume));
    if ValidBar(adjusted) then Some(adjusted) else None
  }

  /** A valid bar can be adjusted exactly when its low does not round to zero. */
  lemma AdjustableExactly(b: Bar, price: real, volume: real)
    requires ValidBar(b) && price > 0.0 && volume >= 0.0
    ensures AdjustBar(b, price, volume).Some? <==> Survives(b.low, price)
  {
    RescaledMonotone(price);
    RepricedValid(b, Rescaled(price), Shares(b.volume, volume));
    RescaledSurvives(b.low, price);
  }

  /** Each price of `a` is within half a quantum of the exact one. */
  predicate NearBar(a: Bar, b: Bar, price: real) {
    && Near(a.open, b.open, price) && Near(a.high, b.high, price)
    && Near(a.low, b.low, price) && Near(a.close, b.close, price)
  }

  lemma SharesNear(volume: nat, factor: real)
    requires factor >= 0.0
    ensures volume as real * factor - 0.5 < Shares(volume, factor) as real <= volume as real * factor + 0.5
  {
  }

  /** An adjusted bar is a valid bar at the same moment, each price within half a quantum of the exact one and the
      volume within half a share. */
  lemma AdjustedNear(b: Bar, price: real, volume: real)
    requires volume >= 0.0 && AdjustBar(b, price, volume).Some?
    ensures var a := AdjustBar(b, price, volume).value;
            && ValidBar(a) && a.timestamp == b.timestamp && NearBar(a, b, price) && a.volume == Shares(b.volume, volume)
  {
    RescaledNear(b.open, price);
    RescaledNear(b.high, price);
    RescaledNear(b.low, price);
    RescaledNear(b.close, price);
  }

  // ----- one series -----

  /** What the loop does to one bar: nothing at all under a factor of one. */
  function AdjustOne(actions: seq<Records.Action>, i: Instrument, b: Bar): Option<Bar> {
    var price, volume := PriceFactor(actions, i, b.timestamp), VolumeFactor(actions, i, b.timestamp);
    FactorsInverse(actions, i, b.timestamp);
    if price == 1.0 then Some(b) else AdjustBar(b, price, volume)
  }

  /** What a caller can test beforehand: no split follows the bar, or its low stays above half a quantum. */
  predicate LowSurvives(actions: seq<Records.Action>, i: Instrument, b: Bar) {
    var price := PriceFactor(actions, i, b.timestamp);
    price == 1.0 || Survives(b.low, price)
  }

  ghost predicate AllValid(bars: seq<Bar>) {
    forall k :: 0 <= k < |bars| ==> ValidBar(bars[k])
  }

  predicate LowsSurvive(actions: seq<Records.Action>, i: Instrument, bars: seq<Bar>) {
    forall k :: 0 <= k < |bars| ==> LowSurvives(actions, i, bars[k])
  }

  predicate AllAdjust(actions: seq<Records.Action>, i: Instrument, bars: seq<Bar>) {
    forall k :: 0 <= k < |bars| ==> AdjustOne(actions, i, bars[k]).Some?
  }

  /** A valid bar can be adjusted exactly when its low does not round to zero under the factor at its moment. */
  lemma AdjustOneExactly(actions: seq<Records.Action>, i: Instrument, b: Bar)
    requires ValidBar(b)
    ensures AdjustOne(actions, i, b).Some? <==> LowSurvives(actions, i, b)
  {
    FactorsInverse(actions, i, b.timestamp);
    AdjustableExactly(b, PriceFactor(actions, i, b.timestamp), VolumeFactor(actions, i, b.timestamp));
  }

  lemma AllAdjustExactly(actions: seq<Records.Action>, i: Instrument, bars: seq<Bar>)
    requires AllValid(bars)
    ensures AllAdjust(actions, i, bars) <==> LowsSurvive(actions, i, bars)
  {
    forall k | 0 <= k < |bars|
      ensures AdjustOne(actions, i, bars[k]).Some? <==> LowSurvives(actions, i, bars[k])
    {
      AdjustOneExactly(actions, i, bars[k]);
    }
  }

  ghost predicate AdjustedSoFar(actions: seq<Records.Action>, i: Instrument, bars: seq<Bar>, adjusted: seq<Bar>) {
    && |adjusted| <= |bars|
    && forall k :: 0 <= k < |adjusted| ==> AdjustOne(actions, i, bars[k]) == Some(adjusted[k])
  }

  lemma AdjustedNext(actions: seq<Records.Action>, i: Instrument, bars: seq<Bar>, adjusted: seq<Bar>, next: Bar)
    requires AdjustedSoFar(actions, i, bars, adjusted) && |adjusted| < |bars|
    requires AdjustOne(actions, i, bars[|adjusted|]) == Some(next)
    ensures AdjustedSoFar(actions, i, bars, adjusted + [next])
  {
  }

  method AdjustSeries(actions: seq<Records.Action>, i: Instrument, bars: seq<Bar>) returns (r: Option<seq<Bar>>)
    ensures r.Some? <==> AllAdjust(actions, i, bars)
    ensures AllValid(bars) ==> (r.Some? <==> LowsSurvive(actions, i, bars))
    ensures r.Some? ==> |r.value| == |bars|
                        && forall k :: 0 <= k < |bars| ==> AdjustOne(actions, i, bars[k]) == Some(r.value[k])
  {
    if AllValid(bars) {
      AllAdjustExactly(actions, i, bars);
    }
    var adjusted: seq<Bar> := [];
    for n := 0 to |bars|
      invariant |adjusted| == n && AdjustedSoFar(actions, i, bars, adjusted)
    {
      var bar := bars[n];
      ghost var one := AdjustOne(actions, i, bar);
      var price := SplitAdjustmentFactorAt(actions, i, bar.timestamp);
      if price == 1.0 {
        AdjustedNext(actions, i, bars, adjusted, bar);
        adjusted := adjusted + [bar];
        continue;
      }
      var volume := VolumeAdjustmentFactorAt(actions, i, bar.timestamp);
      FactorsInverse(actions, i, bar.timestamp);
      var next := AdjustBar(bar, price, volume);
      assert one == next;
      if next == None {
        return None;
      }
      AdjustedNext(actions, i, bars, adjusted, next.value);
      adjusted := adjusted + [next.value];
    }
    return Some(adjusted);
  }

  lemma AdjustOneKeeps(actions: seq<Records.Action>, i: Instrument, b: Bar)
    requires ValidBar(b) && AdjustOne(actions, i, b).Some?
    ensures var a := AdjustOne(actions, i, b).value; ValidBar(a) && a.timestamp == b.timestamp
  {
    FactorsInverse(actions, i, b.timestamp);
  }

  /** From the last split on a series is left as it is. */
  lemma UntouchedAfterTheLast(actions: seq<Records.Action>, i: Instrument, b: Bar)
    requires forall a :: a in actions && a.Split? && a.instrument == i ==> a.at.instant <= b.timestamp
    ensures AdjustOne(actions, i, b) == Some(b)
  {
    NothingAfterTheLast(actions, i, b.timestamp);
  }

  // ----- the dataset -----

  type InstrumentId = int

  datatype DeriveError = ForeignAction | UnknownInstrument | VanishedPrice

  /** The identities of the instruments the raw series carry. */
  ghost predicate Imported(raw: seq<Series>, ids: map<Instrument, InstrumentId>, id: InstrumentId) {
    exists k :: 0 <= k < |raw| && raw[k].instrument in ids && ids[raw[k].instrument] == id
  }

  predicate Adjustable(actions: seq<Records.Action>, ids: map<Instrument, InstrumentId>, s: Series) {
    s.instrument in ids && AllAdjust(actions, ids[s.instrument], s.bars)
  }

  /** A known series in which no low vanishes. */
  predicate Survivor(actions: seq<Records.Action>, ids: map<Instrument, InstrumentId>, s: Series) {
    s.instrument in ids && LowsSurvive(actions, ids[s.instrument], s.bars)
  }

  lemma AdjustableSurvivors(actions: seq<Records.Action>, ids: map<Instrument, InstrumentId>, raw: seq<Series>)
    requires ValidDataset(raw)
    ensures forall s :: s in raw ==> (Adjustable(actions, ids, s) <==> Survivor(actions, ids, s))
  {
    forall s | s in raw
      ensures Adjustable(actions, ids, s) <==> Survivor(actions, ids, s)
    {
      assert AllValid(s.bars);
      if s.instrument in ids {
        AllAdjustExactly(actions, ids[s.instrument], s.bars);
      }
    }
  }

  /** `a` is `s` adjusted bar by bar. */
  predicate AdjustedFrom(actions: seq<Records.Action>, ids: map<Instrument, InstrumentId>, s: Series, a: Series) {
    && s.instrument in ids && a.instrument == s.instrument && |a.bars| == |s.bars|
    && forall k :: 0 <= k < |s.bars| ==> AdjustOne(actions, ids[s.instrument], s.bars[k]) == Some(a.bars[k])
  }

  /** The list before it is sorted. */
  ghost predicate AllAdjusted(actions: seq<Records.Action>, ids: map<Instrument, InstrumentId>, raw: seq<Series>,
                              adjusted: seq<Series>) {
    |adjusted| == |raw| && forall k :: 0 <= k < |raw| ==> AdjustedFrom(actions, ids, raw[k], adjusted[k])
  }

  ghost predicate ActionsImported(actions: seq<Records.Action>, raw: seq<Series>, ids: map<Instrument, InstrumentId>) {
    forall a :: a in actions ==> Imported(raw, ids, a.instrument)
  }

  /** What a refusal says is so. */
  ghost predicate RefusalJustified(raw: seq<Series>, ids: map<Instrument, InstrumentId>, actions: seq<Records.Action>,
                                   error: DeriveError) {
    match error
    case ForeignAction => !ActionsImported(actions, raw, ids)
    case UnknownInstrument => ActionsImported(actions, raw, ids) && exists s :: s in raw && s.instrument !in ids
    case VanishedPrice =>
      ActionsImported(actions, raw, ids) && exists s :: s in raw && s.instrument in ids && !Adjustable(actions, ids, s)
  }

  method AllActionsImported(actions: seq<Records.Action>, raw: seq<Series>, ids: map<Instrument, InstrumentId>)
    returns (ok: bool)
    ensures ok <==> ActionsImported(actions, raw, ids)
  {
    var imported: set<InstrumentId> := {};
    for n := 0 to |raw|
      invariant forall id :: id in imported
                  <==> exists k :: 0 <= k < n && raw[k].instrument in ids && ids[raw[k].instrument] == id
    {
      if raw[n].instrument in ids {
        imported := imported + {ids[raw[n].instrument]};
      }
    }
    for n := 0 to |actions|
      invariant forall k :: 0 <= k < n ==> Imported(raw, ids, actions[k].instrument)
    {
      var id := actions[n].instrument;
      assert id in imported <==> Imported(raw, ids, id);
      if id !in imported {
        assert actions[n] in actions;
        return false;
      }
    }
    return true;
  }

  /** Deriving from a valid dataset succeeds exactly when every action is about an imported instrument, every series
      is a known one and every low stays above half a quantum under the factor at its moment. The result holds every
      series, adjusted bar by bar, in the order of the instruments. */
  method DeriveSplitAdjusted(raw: seq<Series>, ids: map<Instrument, InstrumentId>, actions: seq<Records.Action>)
    returns (r: Result<seq<Series>, DeriveError>)
    ensures r.Success? <==> ActionsImported(actions, raw, ids) && forall s :: s in raw ==> Adjustable(actions, ids, s)
    ensures ValidDataset(raw) ==>
              (r.Success? <==> ActionsImported(actions, raw, ids) && forall s :: s in raw ==> Survivor(actions, ids, s))
    ensures ValidDataset(raw) && r == Failure(VanishedPrice) ==>
              exists s :: s in raw && s.instrument in ids && !Survivor(actions, ids, s)
    ensures r.Success? ==>
              exists adjusted :: AllAdjusted(actions, ids, raw, adjusted) && r.value == Sort(SeriesLeq, adjusted)
    ensures r.Failure? ==> RefusalJustified(raw, ids, actions, r.error)
  {
    if ValidDataset(raw) {
      AdjustableSurvivors(actions, ids, raw);
    }
    var ok := AllActionsImported(actions, raw, ids);
    if !ok {
      return Failure(ForeignAction);
    }
    var adjusted: seq<Series> := [];
    for n := 0 to |raw|
      invariant AllAdjusted(actions, ids, raw[..n], adjusted)
    {
      assert raw[n] in raw;
      if raw[n].instrument !in ids {
        return Failure(UnknownInstrument);
      }
      var bars := AdjustSeries(actions, ids[raw[n].instrument], raw[n].bars);
      if bars == None {
        return Failure(VanishedPrice);
      }
      assert raw[..n + 1] == raw[..n] + [raw[n]];
      adjusted := adjusted + [Series(raw[n].instrument, bars.value)];
    }
    assert raw[..|raw|] == raw;
    forall s | s in raw
      ensures Adjustable(actions, ids, s)
    {
      var k :| 0 <= k < |raw| && raw[k] == s;
      assert AdjustedFrom(actions, ids, raw[k], adjusted[k]);
    }
    return Success(Sort(SeriesLeq, adjusted));
  }

  // ----- a derived dataset is a dataset -----

  function MomentOf(b: Bar): int {
    b.timestamp
  }

  /** `s` has one valid bar for every moment of `grid`. */
  ghost predicate OnGrid(s: Series, grid: seq<int>) {
    |s.bars| == |grid| && forall k :: 0 <= k < |grid| ==> ValidBar(s.bars[k]) && s.bars[k].timestamp == grid[k]
  }

  predicate Increasing(grid: seq<int>) {
    forall k, l :: 0 <= k < l < |grid| ==> grid[k] < grid[l]
  }

  lemma ValidByGrid(d: seq<Series>, grid: seq<int>)
    requires d != [] && DistinctInstruments(d) && |grid| >= 2 && Increasing(grid)
    requires forall s :: s in d ==> OnGrid(s, grid)
    ensures ValidDataset(d)
  {
  }

  lemma AdjustedOnGrid(actions: seq<Records.Action>, ids: map<Instrument, InstrumentId>, s: Series, a: Series,
                       grid: seq<int>)
    requires OnGrid(s, grid) && AdjustedFrom(actions, ids, s, a)
    ensures OnGrid(a, grid)
  {
    forall k | 0 <= k < |grid|
      ensures ValidBar(a.bars[k]) && a.bars[k].timestamp == grid[k]
    {
      assert ValidBar(s.bars[k]);
      AdjustOneKeeps(actions, ids[s.instrument], s.bars[k]);
    }
  }

  /** Split adjustment takes a dataset the backtest accepts to one it accepts, on the same grid of moments. */
  lemma DerivedIsValid(raw: seq<Series>, ids: map<Instrument, InstrumentId>, actions: seq<Records.Action>,
                       adjusted: seq<Series>)
    requires ValidDataset(raw) && AllAdjusted(actions, ids, raw, adjusted)
    ensures ValidDataset(Sort(SeriesLeq, adjusted))
    ensures forall s :: s in Sort(SeriesLeq, adjusted) ==> OnGrid(s, Map(MomentOf, raw[0].bars))
  {
    var grid := Map(MomentOf, raw[0].bars);
    assert raw[0] in raw;
    forall s | s in Sort(SeriesLeq, adjusted)
      ensures OnGrid(s, grid)
    {
      InSort(SeriesLeq, adjusted, s);
      var k :| 0 <= k < |adjusted| && adjusted[k] == s;
      assert raw[k] in raw && AdjustedFrom(actions, ids, raw[k], adjusted[k]);
      AdjustedOnGrid(actions, ids, raw[k], s, grid);
    }
    forall i, j | 0 <= i < j < |adjusted|
      ensures adjusted[i].instrument != adjusted[j].instrument
    {
      assert AdjustedFrom(actions, ids, raw[i], adjusted[i]) && AdjustedFrom(actions, ids, raw[j], adjusted[j]);
    }
    OrderedDistinct(adjusted);
    ValidByGrid(Sort(SeriesLeq, adjusted), grid);
  }

  // ----- what an adjusted bar and an adjusted dataset say -----

  /** An adjusted bar is at the same moment, each price within half a quantum of the raw one times the price factor at
      that moment, and the volume within half a share of the raw one times the volume factor, ties up. */
  lemma AdjustedByFactors(actions: seq<Records.Action>, i: Instrument, b: Bar)
    requires AdjustOne(actions, i, b).Some?
    ensures var a := AdjustOne(actions, i, b).value;
            && a.timestamp == b.timestamp && NearBar(a, b, PriceFactor(actions, i, b.timestamp))
            && NearShares(a.volume, b.volume, VolumeFactor(actions, i, b.timestamp))
  {
    var price, volume := PriceFactor(actions, i, b.timestamp), VolumeFactor(actions, i, b.timestamp);
    FactorsInverse(actions, i, b.timestamp);
    if price == 1.0 {
      InverseOfOne(price, volume);
      NearItself(b);
    } else {
      AdjustedNear(b, price, volume);
      RoundedShares(b.volume, volume);
    }
  }

  predicate NearShares(shares: nat, raw: nat, factor: real) {
    raw as real * factor - 0.5 < shares as real <= raw as real * factor + 0.5
  }

  lemma RoundedShares(volume: nat, factor: real)
    requires factor >= 0.0
    ensures NearShares(Shares(volume, factor), volume, factor)
  {
    SharesNear(volume, factor);
  }

  lemma NearItself(b: Bar)
    ensures NearBar(b, b, 1.0) && NearShares(b.volume, b.volume, 1.0)
  {
  }

  lemma InverseOfOne(p: real, v: real)
    requires Inverse(p, v) && p == 1.0
    ensures v == 1.0
  {
  }

  /** The adjusted series are listed by ascending instrument, each the adjusted form of a raw one, none left out. */
  lemma DerivedInOrder(actions: seq<Records.Action>, ids: map<Instrument, InstrumentId>, raw: seq<Series>,
                       adjusted: seq<Series>)
    requires AllAdjusted(actions, ids, raw, adjusted) && DistinctInstruments(raw)
    ensures var r := Sort(SeriesLeq, adjusted);
            && (forall f, g :: 0 <= f < g < |r| ==> r[f].instrument < r[g].instrument)
            && (forall a :: a in r ==> exists s :: s in raw && AdjustedFrom(actions, ids, s, a))
            && (forall s :: s in raw ==> exists a :: a in r && AdjustedFrom(actions, ids, s, a))
  {
    var r := Sort(SeriesLeq, adjusted);
    forall i, j | 0 <= i < j < |adjusted|
      ensures adjusted[i].instrument != adjusted[j].instrument
    {
      assert AdjustedFrom(actions, ids, raw[i], adjusted[i]) && AdjustedFrom(actions, ids, raw[j], adjusted[j]);
    }
    SortSorted(SeriesLeq, adjusted);
    OrderedDistinct(adjusted);
    forall f, g | 0 <= f < g < |r|
      ensures r[f].instrument < r[g].instrument
    {
      assert SeriesLeq(r[f], r[g]) && r[f].instrument != r[g].instrument;
    }
    forall a | a in r
      ensures exists s :: s in raw && AdjustedFrom(actions, ids, s, a)
    {
      InSort(SeriesLeq, adjusted, a);
      var k :| 0 <= k < |adjusted| && adjusted[k] == a;
      assert AdjustedFrom(actions, ids, raw[k], adjusted[k]) && raw[k] in raw;
    }
    forall s | s in raw
      ensures exists a :: a in r && AdjustedFrom(actions, ids, s, a)
    {
      var k :| 0 <= k < |raw| && raw[k] == s;
      InSort(SeriesLeq, adjusted, adjusted[k]);
      assert AdjustedFrom(actions, ids, raw[k], adjusted[k]);
    }
  }
}
