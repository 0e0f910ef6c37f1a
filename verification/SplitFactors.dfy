/** The factors that express a bar in terms comparable to the bars after every later split, as exact reals. */
module SplitFactors {
  import opened Sorting
  import opened Products
  import opened CorporateActionRecords

  function Times(a: real, b: real): real {
    a * b
  }

  function SplitsOf(i: Instrument): Action -> bool {
    (a: Action) => a.Split? && a.instrument == i
  }

  /** Splits of `i` that take effect after `instant`. */
  function SplitsAfter(i: Instrument, instant: int): Action -> bool {
    (a: Action) => a.Split? && a.instrument == i && instant < a.at.instant
  }

  /** Splits of `i` that take effect after `earlier` and no later than `later`. */
  function SplitsBetween(i: Instrument, earlier: int, later: int): Action -> bool {
    (a: Action) => a.Split? && a.instrument == i && earlier < a.at.instant <= later
  }

  function PriceRatio(a: Action): real {
    if a.Split? then a.oldShares as real / a.newShares as real else 1.0
  }

  function VolumeRatio(a: Action): real {
    if a.Split? then a.newShares as real / a.oldShares as real else 1.0
  }

  /** The product of the price ratios of the splits `keep` selects. */
  function PriceOver(keep: Action -> bool, actions: seq<Action>): real {
    Kept(Times, 1.0, PriceRatio, keep, actions)
  }

  function VolumeOver(keep: Action -> bool, actions: seq<Action>): real {
    Kept(Times, 1.0, VolumeRatio, keep, actions)
  }

  function PriceFactor(actions: seq<Action>, i: Instrument, instant: int): real {
    PriceOver(SplitsAfter(i, instant), actions)
  }

  function VolumeFactor(actions: seq<Action>, i: Instrument, instant: int): real {
    VolumeOver(SplitsAfter(i, instant), actions)
  }

  /** Over the splits of the instrument, those not yet in effect at `instant`. */
  method SplitAdjustmentFactorAt(actions: seq<Action>, i: Instrument, instant: int) returns (factor: real)
    ensures factor == PriceFactor(actions, i, instant)
  {
    factor := Accumulate(Times, 1.0, PriceRatio, SplitsAfter(i, instant), Filter(SplitsOf(i), actions));
    FilterImplied(SplitsAfter(i, instant), SplitsOf(i), actions);
  }

  method VolumeAdjustmentFactorAt(actions: seq<Action>, i: Instrument, instant: int) returns (factor: real)
    ensures factor == VolumeFactor(actions, i, instant)
  {
    factor := Accumulate(Times, 1.0, VolumeRatio, SplitsAfter(i, instant), Filter(SplitsOf(i), actions));
    FilterImplied(SplitsAfter(i, instant), SplitsOf(i), actions);
  }

  lemma TimesLaws()
    ensures Associative(Times) && Exchangeable(Times)
  {
  }

  lemma RatiosInverse(a: Action)
    ensures PriceRatio(a) > 0.0 && VolumeRatio(a) > 0.0 && PriceRatio(a) * VolumeRatio(a) == 1.0
  {
  }

  /** Positive and exact inverses. */
  predicate Inverse(p: real, v: real) {
    p > 0.0 && v > 0.0 && p * v == 1.0
  }

  lemma InverseTimes(p: real, v: real, pr: real, vr: real)
    requires Inverse(p, v) && Inverse(pr, vr)
    ensures Inverse(Times(p, pr), Times(v, vr))
  {
  }

  lemma {:induction false} CombinedInverse(s: seq<Action>)
    ensures Inverse(Combine(Times, 1.0, PriceRatio, s), Combine(Times, 1.0, VolumeRatio, s))
  {
    if s == [] {
    } else {
      var front, last := s[..|s| - 1], s[|s| - 1];
      CombinedInverse(front);
      RatiosInverse(last);
      InverseTimes(Combine(Times, 1.0, PriceRatio, front), Combine(Times, 1.0, VolumeRatio, front),
                   PriceRatio(last), VolumeRatio(last));
    }
  }

  /** At every moment the two factors are positive and exact inverses, so price times volume is kept. */
  lemma FactorsInverse(actions: seq<Action>, i: Instrument, instant: int)
    ensures Inverse(PriceFactor(actions, i, instant), VolumeFactor(actions, i, instant))
  {
    CombinedInverse(Filter(SplitsAfter(i, instant), actions));
  }

  /** Factors multiply across disjoint stretches of time. */
  lemma FactorsMultiply(actions: seq<Action>, i: Instrument, earlier: int, later: int)
    requires earlier <= later
    ensures PriceFactor(actions, i, earlier)
         == Times(PriceOver(SplitsBetween(i, earlier, later), actions), PriceFactor(actions, i, later))
    ensures VolumeFactor(actions, i, earlier)
         == Times(VolumeOver(SplitsBetween(i, earlier, later), actions), VolumeFactor(actions, i, later))
  {
    TimesLaws();
    var wide, between, narrow := SplitsAfter(i, earlier), SplitsBetween(i, earlier, later), SplitsAfter(i, later);
    KeptSplits(Times, 1.0, PriceRatio, wide, between, narrow, actions);
    KeptSplits(Times, 1.0, VolumeRatio, wide, between, narrow, actions);
  }

  /** From the last split on nothing is adjusted. */
  lemma NothingAfterTheLast(actions: seq<Action>, i: Instrument, instant: int)
    requires forall a :: a in actions && a.Split? && a.instrument == i ==> a.at.instant <= instant
    ensures PriceFactor(actions, i, instant) == VolumeFactor(actions, i, instant) == 1.0
  {
    FilterNone(SplitsAfter(i, instant), actions);
  }

  /** Neither factor depends on the order in which the actions are declared. */
  lemma FactorsIgnoreOrder(a: seq<Action>, b: seq<Action>, i: Instrument, instant: int)
    requires multiset(a) == multiset(b)
    ensures PriceFactor(a, i, instant) == PriceFactor(b, i, instant)
    ensures VolumeFactor(a, i, instant) == VolumeFactor(b, i, instant)
  {
    TimesLaws();
    var keep := SplitsAfter(i, instant);
    FilterMultiset(keep, a, b);
    CombinePermutation(Times, 1.0, PriceRatio, Filter(keep, a), Filter(keep, b));
    CombinePermutation(Times, 1.0, VolumeRatio, Filter(keep, a), Filter(keep, b));
  }

  /** Whether `a` is a split of `i` not yet in effect at `instant`. */
  predicate NotYet(a: Action, i: Instrument, instant: int) {
    a.Split? && a.instrument == i && instant < a.at.instant
  }

  /** `next` is `before` times `times`, divided into `parts`. */
  predicate Scaled(next: real, before: real, times: nat, parts: nat) {
    next * parts as real == before * times as real
  }

  lemma RatioScales(f: real, x: nat, y: nat)
    requires y > 0
    ensures Scaled(Times(f, x as real / y as real), f, x, y)
  {
    var ratio := x as real / y as real;
    assert ratio * y as real == x as real;
    assert (f * ratio) * y as real == f * (ratio * y as real);
  }

  /** One more action: only a split of the instrument not yet in effect counts, its new shares dividing prices and its
      old shares dividing volumes. */
  lemma FactorNext(actions: seq<Action>, a: Action, i: Instrument, instant: int)
    ensures PriceFactor([], i, instant) == VolumeFactor([], i, instant) == 1.0
    ensures var price, volume := PriceFactor(actions, i, instant), VolumeFactor(actions, i, instant);
            var price2, volume2 := PriceFactor(actions + [a], i, instant), VolumeFactor(actions + [a], i, instant);
            if NotYet(a, i, instant) then
              Scaled(price2, price, a.oldShares, a.newShares) && Scaled(volume2, volume, a.newShares, a.oldShares)
            else price2 == price && volume2 == volume
  {
    KeptNext(Times, 1.0, PriceRatio, SplitsAfter(i, instant), actions, a);
    KeptNext(Times, 1.0, VolumeRatio, SplitsAfter(i, instant), actions, a);
    if NotYet(a, i, instant) {
      RatioScales(PriceFactor(actions, i, instant), a.oldShares, a.newShares);
      RatioScales(VolumeFactor(actions, i, instant), a.newShares, a.oldShares);
    }
  }

  /** A forward split, before it is in effect, lowers prices and raises volumes; a reverse split does the opposite. */
  lemma SingleSplit(a: Action, instant: int)
    requires NotYet(a, a.instrument, instant)
    ensures var price, volume := PriceFactor([a], a.instrument, instant), VolumeFactor([a], a.instrument, instant);
            && Scaled(price, 1.0, a.oldShares, a.newShares) && Scaled(volume, 1.0, a.newShares, a.oldShares)
            && (price < 1.0 <==> a.newShares > a.oldShares) && (volume > 1.0 <==> a.newShares > a.oldShares)
  {
    assert [] + [a] == [a];
    FactorNext([], a, a.instrument, instant);
    ScaledOne(PriceFactor([a], a.instrument, instant), a.oldShares, a.newShares);
    ScaledOne(VolumeFactor([a], a.instrument, instant), a.newShares, a.oldShares);
  }

  lemma ScaledOne(f: real, times: nat, parts: nat)
    requires parts > 0 && Scaled(f, 1.0, times, parts)
    ensures (f < 1.0 <==> times < parts) && (f > 1.0 <==> times > parts)
  {
    Compare(f, parts as real, times as real);
  }

  lemma Compare(f: real, x: real, y: real)
    requires x > 0.0 && f * x == y
    ensures (f < 1.0 <==> y < x) && (f > 1.0 <==> y > x)
  {
    if f < 1.0 {
      assert (1.0 - f) * x > 0.0;
    }
    if f > 1.0 {
      assert (f - 1.0) * x > 0.0;
    }
  }
}
