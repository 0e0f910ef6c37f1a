/** The round-trip ratio: the printed amounts parsed back, reduced exactly, and rendered without ever
    crossing the exact value. */
module RoundTripRatio {
  import opened Wrappers
  import opened Sorting
  import opened DecimalText
  import opened PositionFold
  import opened PositionLedger
  import opened PositionState
  import opened EvidenceAvailability
  import opened RoundTrip
  import opened RoundTripAccounting

  // ----- lowest terms -----

  function Gcd(a: nat, b: nat): (g: nat)
    ensures a + b > 0 ==> g > 0
    decreases b
  {
    if b == 0 then a else Gcd(b, a % b)
  }

  ghost predicate Divides(d: int, n: int) {
    exists k: int :: n == d * k
  }

  lemma DividesCombination(d: int, a: int, b: int, q: int)
    requires Divides(d, a) && Divides(d, b)
    ensures Divides(d, a + q * b)
  {
    var i: int :| a == d * i;
    var j: int :| b == d * j;
    assert a + q * b == d * (i + q * j);
  }

  lemma {:induction false} GcdDivides(a: nat, b: nat)
    requires a + b > 0
    ensures Divides(Gcd(a, b), a) && Divides(Gcd(a, b), b)
    decreases b
  {
    if b == 0 {
      assert a == a * 1 && 0 == a * 0;
    } else {
      GcdDivides(b, a % b);
      DividesCombination(Gcd(a, b), a % b, b, a / b);
      assert a == a % b + (a / b) * b;
    }
  }

  /** Every common divisor divides it: it is the greatest one. */
  lemma {:induction false} GcdGreatest(d: int, a: nat, b: nat)
    requires Divides(d, a) && Divides(d, b)
    ensures Divides(d, Gcd(a, b))
    decreases b
  {
    if b == 0 {
    } else {
      DividesCombination(d, a, b, -(a / b));
      assert a % b == a + (-(a / b)) * b;
      GcdGreatest(d, b, a % b);
    }
  }

  lemma ScaledRemainder(k: nat, a: nat, b: nat)
    requires k > 0 && b > 0
    ensures k * b > 0 && (k * a) % (k * b) == k * (a % b)
  {
    var q, r := a / b, a % b;
    assert k * a == (k * b) * q + k * r by {
      assert a == b * q + r;
      assert k * (b * q) == (k * b) * q;
    }
    assert 0 <= k * r < k * b by {
      assert k * (b - r) > 0;
    }
    RemainderUnique(k * a, k * b, q, k * r);
  }

  lemma MultiplyBound(a: int, b: int, d: int)
    requires a <= b && d >= 0
    ensures a * d <= b * d
  {
  }

  lemma SmallMultiple(d: int, e: int)
    requires d > 0 && -d < d * e < d
    ensures e == 0
  {
    MultiplyBound(1, if e >= 1 then e else 1, d);
    MultiplyBound(if e <= -1 then e else -1, -1, d);
  }

  lemma RemainderUnique(n: int, d: int, q: int, r: int)
    requires d > 0 && n == d * q + r && 0 <= r < d
    ensures n % d == r && n / d == q
  {
    assert d * (n / d) + n % d == n;
    assert d * (n / d - q) == d * (n / d) - d * q;
    SmallMultiple(d, n / d - q);
  }

  lemma {:induction false} GcdScales(k: nat, a: nat, b: nat)
    requires k > 0
    ensures k * a >= 0 && k * b >= 0 && Gcd(k * a, k * b) == k * Gcd(a, b)
    decreases b
  {
    if b == 0 {
      assert k * b == 0;
    } else {
      ScaledRemainder(k, a, b);
      GcdScales(k, b, a % b);
    }
  }

  /** `None` where the source raises: a denominator that is not positive. */
  function Reduced(numerator: int, denominator: int): Option<(int, int)> {
    if denominator <= 0 then None
    else
      var divisor := Gcd(Abs(numerator), denominator);
      Some((numerator / divisor, denominator / divisor))
  }

  lemma ExactQuotient(n: int, g: int)
    requires g > 0 && Divides(g, n)
    ensures (n / g) * g == n
  {
    var k: int :| n == g * k;
    RemainderUnique(n, g, k, 0);
  }

  lemma DividesAbs(d: int, n: int)
    ensures Divides(d, Abs(n)) <==> Divides(d, n)
  {
    if k: int :| n == d * k {
      assert -n == d * (-k);
    }
    if k: int :| Abs(n) == d * k {
      assert 0 - Abs(n) == d * (-k);
    }
  }

  lemma PositiveFactor(x: int, g: int)
    requires g > 0 && x * g > 0
    ensures x > 0
  {
    MultiplyBound(if x <= 0 then x else 0, 0, g);
  }

  /** The quotients by the divisor are exact. */
  lemma ReducedExact(numerator: int, denominator: int)
    requires denominator > 0
    ensures var g := Gcd(Abs(numerator), denominator);
            var pair := Reduced(numerator, denominator).value;
            && g > 0 && pair.0 * g == numerator && pair.1 * g == denominator && pair.1 > 0
  {
    var g := Gcd(Abs(numerator), denominator);
    GcdDivides(Abs(numerator), denominator);
    DividesAbs(g, numerator);
    ExactQuotient(numerator, g);
    ExactQuotient(denominator, g);
    PositiveFactor(denominator / g, g);
  }

  lemma DivisorOfGcd(k: int, g: int)
    requires g > 0 && k > 0 && Divides(g * k, g)
    ensures k == 1
  {
    var m: int :| g == (g * k) * m;
    assert (g * k) * m == g * (k * m) && g * (k * m - 1) == g * (k * m) - g;
    SmallMultiple(g, k * m - 1);
    PositiveFactor(m, k);
    MultiplyBound(1, m, k);
  }

  lemma ProductOfDivisors(g: int, k: int, x: int)
    requires Divides(k, x)
    ensures Divides(g * k, x * g)
  {
    var i: int :| x == k * i;
    assert x * g == (g * k) * i;
  }

  lemma CrossEqual(x: int, y: int, g: int)
    ensures x * (y * g) == (x * g) * y
  {
  }

  /** The pair is the same rational, in lowest terms, over a positive denominator. */
  lemma ReducedLowestTerms(numerator: int, denominator: int)
    requires denominator > 0
    ensures var pair := Reduced(numerator, denominator).value;
            && pair.1 > 0 && pair.0 * denominator == numerator * pair.1
            && forall k: int :: k > 0 && Divides(k, pair.0) && Divides(k, pair.1) ==> k == 1
  {
    var g := Gcd(Abs(numerator), denominator);
    var pair := Reduced(numerator, denominator).value;
    ReducedExact(numerator, denominator);
    CrossEqual(pair.0, pair.1, g);
    forall k: int | k > 0 && Divides(k, pair.0) && Divides(k, pair.1)
      ensures k == 1
    {
      ProductOfDivisors(g, k, pair.0);
      ProductOfDivisors(g, k, pair.1);
      DividesAbs(g * k, numerator);
      GcdGreatest(g * k, Abs(numerator), denominator);
      DivisorOfGcd(k, g);
    }
  }

  lemma AbsScaled(n: int, k: nat)
    ensures Abs(n * k) == k * Abs(n)
  {
    if n < 0 {
      MultiplyBound(n, 0, k);
      assert (-n) * k == -(n * k);
    } else {
      MultiplyBound(0, n, k);
    }
  }

  lemma ScaledQuotient(x: int, g: int, k: int)
    requires g > 0 && k > 0
    ensures k * g > 0 && ((x * g) * k) / (k * g) == x
  {
    MultiplyBound(1, k, g);
    assert (x * g) * k == (k * g) * x;
    RemainderUnique((x * g) * k, k * g, x, 0);
  }

  lemma ReducedScaled(n: int, d: int, k: nat)
    requires d > 0 && k > 0
    ensures d * k > 0 && Reduced(n * k, d * k) == Reduced(n, d)
  {
    var g := Gcd(Abs(n), d);
    var pair := Reduced(n, d).value;
    MultiplyBound(1, k, d);
    AbsScaled(n, k);
    GcdScales(k, Abs(n), d);
    ReducedExact(n, d);
    ScaledQuotient(pair.0, g, k);
    ScaledQuotient(pair.1, g, k);
  }

  lemma FourFactors(x: int, g: int, y: int, h: int)
    ensures (x * g) * (y * h) == (x * h) * (y * g)
  {
  }

  lemma EqualWhenReducedAlike(a: int, b: int, c: int, d: int)
    requires b > 0 && d > 0 && Reduced(a, b) == Reduced(c, d)
    ensures a * d == c * b
  {
    ReducedExact(a, b);
    ReducedExact(c, d);
    var pair := Reduced(a, b).value;
    FourFactors(pair.0, Gcd(Abs(a), b), pair.1, Gcd(Abs(c), d));
  }

  /** One rational, one pair: two fractions reduce alike exactly when they are equal. */
  lemma ReducedCanonical(a: int, b: int, c: int, d: int)
    requires b > 0 && d > 0
    ensures Reduced(a, b) == Reduced(c, d) <==> a * d == c * b
  {
    if a * d == c * b {
      ReducedAlikeWhenEqual(a, b, c, d);
    }
    if Reduced(a, b) == Reduced(c, d) {
      EqualWhenReducedAlike(a, b, c, d);
    }
  }

  lemma ReducedAlikeWhenEqual(a: int, b: int, c: int, d: int)
    requires b > 0 && d > 0 && a * d == c * b
    ensures Reduced(a, b) == Reduced(c, d)
  {
    ReducedScaled(a, b, d);
    ReducedScaled(c, d, b);
    var top, bottom := a * d, b * d;
    assert top == c * b && bottom == d * b;
  }

  // ----- the ratio of an entry -----

  datatype Ratio = Ratio(numerator: int, denominator: int, approximation: string, approximationIsExact: bool)

  datatype AbsenceReason = NoExit | UnresolvedKnowledge

  /** Parse the printed amounts back and reduce. `None` where the source raises. */
  function RatioOfTexts(result: string, entryCost: string): Option<Ratio> {
    match (ScaledFromMoney(result), ScaledFromMoney(entryCost))
    case (Some(numerator), Some(denominator)) =>
      (match Reduced(numerator, denominator)
       case None => None
       case Some((n, d)) =>
         assert d > 0 by {
           ReducedExact(numerator, denominator);
         }
         var (text, exact) := DecimalApproximation(n, d);
         Some(Ratio(n, d, text, exact)))
    case _ => None
  }

  function RatioEntry(source: RoundTripEntry): Result<Option<Ratio>, AbsenceReason> {
    if source.result.Some? && source.entryCost.Some? then
      Success(RatioOfTexts(source.result.value, source.entryCost.value))
    else Failure(if source.status == UnresolvedSequence then UnresolvedKnowledge else NoExit)
  }

  // ----- the decimal rendering -----

  /** `f"{whole}.{fraction:06d}".rstrip("0").rstrip(".")`, or "0" if nothing is left. */
  function RenderPoint(quotient: nat): string {
    var whole, fraction := quotient / MONEY_SCALE, quotient % MONEY_SCALE;
    var rendered := StripTrailing('.', StripTrailing('0', NatText(whole) + "." + Padded(fraction, MONEY_PLACES)));
    if rendered == "" then "0" else rendered
  }

  const SMALLEST := "0." + Zeros(MONEY_PLACES - 1) + "1"

  function DecimalApproximation(numerator: int, denominator: int): (string, bool)
    requires denominator > 0
  {
    var magnitude := Abs(numerator);
    var quotient, remainder := (magnitude * MONEY_SCALE) / denominator, (magnitude * MONEY_SCALE) % denominator;
    if quotient == 0 && numerator != 0 then
      (if numerator < 0 then ">-" + SMALLEST + " and <0" else ">0 and <" + SMALLEST, false)
    else
      var rendered := (if numerator < 0 then "-" else "") + RenderPoint(quotient);
      (if remainder == 0 then rendered else "~" + rendered, remainder == 0)
  }

  lemma StripPoint(whole: string, r: string)
    requires whole != "" && AllDigits(whole) && AllDigits(r)
    ensures StripTrailing('.', whole + "." + r) == if r == "" then whole else whole + "." + r
  {
    var head := whole + "." + r;
    LastDigit(whole);
    if r == "" {
      assert head == whole + ".";
      assert head[..|head| - 1] == whole;
    } else {
      LastDigit(r);
      assert head[|head| - 1] == r[|r| - 1];
    }
  }

  /** Stripping zeros from the joined text strips them from the fraction. */
  lemma StripZeros(whole: string, fraction: nat)
    requires fraction < MONEY_SCALE
    ensures var r := StripTrailing('0', Padded(fraction, MONEY_PLACES));
            AllDigits(r) && StripTrailing('0', whole + "." + Padded(fraction, MONEY_PLACES)) == whole + "." + r
  {
    var padded := Padded(fraction, MONEY_PLACES);
    var r := StripTrailing('0', padded);
    FractionDigits(fraction);
    var head := whole + "." + r;
    assert whole + "." + padded == head + Zeros(MONEY_PLACES - |r|);
    StripPadding(head, MONEY_PLACES - |r|);
  }

  /** Stripping the joined text leaves what the money printer prints. */
  lemma PointIsMoney(quotient: nat)
    ensures RenderPoint(quotient) == UnsignedMoney(quotient)
  {
    var whole, fraction := quotient / MONEY_SCALE, quotient % MONEY_SCALE;
    StripZeros(NatText(whole), fraction);
    StripPoint(NatText(whole), StripTrailing('0', Padded(fraction, MONEY_PLACES)));
  }

  lemma LastDigit(s: string)
    requires s != "" && AllDigits(s)
    ensures IsDigit(s[|s| - 1]) && s[|s| - 1] != '.'
  {
  }

  /** A magnitude with its sign. */
  function Signed(numerator: int, magnitude: int): int {
    if numerator < 0 then -magnitude else magnitude
  }

  /** A rendering is an amount in 10^-6 units, as the money printer prints it. */
  lemma RenderedAmount(numerator: int, quotient: int)
    requires quotient > 0 || (numerator == 0 && quotient == 0)
    ensures (if numerator < 0 then "-" else "") + RenderPoint(quotient) == MoneyFromScaled(Signed(numerator, quotient))
  {
    PointIsMoney(quotient);
  }

  /** How the three kinds of rendering relate to the exact ratio numerator/denominator, in 10^-6 units. */
  ghost predicate Encloses(text: string, exact: bool, numerator: int, denominator: int) {
    var n := numerator * MONEY_SCALE;
    if exact then
      // the text is the exact value
      ScaledFromMoney(text).Some? && ScaledFromMoney(text).value * denominator == n
    else if text != "" && text[0] == '~' then
      // truncated toward zero: same sign, smaller magnitude, less than one unit away
      ScaledFromMoney(text[1..]).Some? && TruncatedTo(ScaledFromMoney(text[1..]).value, n, denominator)
    else
      // an open interval one unit wide on the ratio's own side of zero
      || (text == ">0 and <" + SMALLEST && 0 < n < denominator)
      || (text == ">-" + SMALLEST + " and <0" && -denominator < n < 0)
  }

  predicate TruncatedTo(v: int, n: int, denominator: int) {
    || (v > 0 && 0 < v * denominator < n < (v + 1) * denominator)
    || (v < 0 && (v - 1) * denominator < n < v * denominator < 0)
  }

  lemma ExactValue(numerator: int, denominator: int, q: int)
    requires Abs(numerator) * MONEY_SCALE == q * denominator
    ensures Signed(numerator, q) * denominator == numerator * MONEY_SCALE
  {
  }

  lemma TruncatedValue(numerator: int, denominator: int, q: int, r: int)
    requires denominator > 0 && q > 0 && 0 < r < denominator && Abs(numerator) * MONEY_SCALE == q * denominator + r
    ensures TruncatedTo(Signed(numerator, q), numerator * MONEY_SCALE, denominator)
  {
    assert q * denominator > 0;
    assert (q + 1) * denominator == q * denominator + denominator;
    if numerator < 0 {
      assert (-q) * denominator == -(q * denominator);
      assert (-q - 1) * denominator == -((q + 1) * denominator);
    }
  }

  lemma MarkedApart(amount: int)
    ensures MoneyFromScaled(amount) != "" && MoneyFromScaled(amount)[0] != '~'
    ensures ("~" + MoneyFromScaled(amount))[1..] == MoneyFromScaled(amount)
    ensures ScaledFromMoney(MoneyFromScaled(amount)) == Some(amount)
  {
    MoneyParts(Abs(amount));
    MoneyRoundTrip(amount);
  }

  /** What is rendered when the magnitude does not vanish. */
  lemma PointRendering(numerator: int, denominator: int, q: int, r: int)
    requires denominator > 0 && q >= 0 && 0 <= r < denominator
    requires Abs(numerator) * MONEY_SCALE == q * denominator + r
    requires q > 0 || numerator == 0
    ensures DecimalApproximation(numerator, denominator)
         == (if r == 0 then MoneyFromScaled(Signed(numerator, q)) else "~" + MoneyFromScaled(Signed(numerator, q)),
             r == 0)
    ensures q == 0 ==> numerator == r == 0
  {
    RemainderUnique(Abs(numerator) * MONEY_SCALE, denominator, q, r);
    if q == 0 {
      assert q * denominator == 0;
    }
    RenderedAmount(numerator, q);
  }

  /** The rendering always encloses the exact ratio. */
  lemma RenderingEncloses(numerator: int, denominator: int)
    requires denominator > 0
    ensures var (text, exact) := DecimalApproximation(numerator, denominator);
            Encloses(text, exact, numerator, denominator)
  {
    var m := Abs(numerator) * MONEY_SCALE;
    var q, r := m / denominator, m % denominator;
    assert m == q * denominator + r;
    if q == 0 && numerator != 0 {
      VanishedEnclosed(numerator, denominator);
    } else {
      PointEnclosed(numerator, denominator, q, r);
    }
  }

  lemma VanishedEnclosed(numerator: int, denominator: int)
    requires denominator > 0 && numerator != 0 && (Abs(numerator) * MONEY_SCALE) / denominator == 0
    ensures var (text, exact) := DecimalApproximation(numerator, denominator);
            Encloses(text, exact, numerator, denominator)
  {
  }

  lemma PointEnclosed(numerator: int, denominator: int, q: int, r: int)
    requires denominator > 0 && q >= 0 && 0 <= r < denominator
    requires Abs(numerator) * MONEY_SCALE == q * denominator + r
    requires q > 0 || numerator == 0
    ensures var (text, exact) := DecimalApproximation(numerator, denominator);
            Encloses(text, exact, numerator, denominator)
  {
    PointRendering(numerator, denominator, q, r);
    MarkedApart(Signed(numerator, q));
    if r == 0 {
      ExactValue(numerator, denominator, q);
    } else {
      TruncatedValue(numerator, denominator, q, r);
    }
  }

  lemma VanishedText(numerator: int, denominator: int)
    requires denominator > 0 && numerator != 0 && (Abs(numerator) * MONEY_SCALE) / denominator == 0
    ensures var text := DecimalApproximation(numerator, denominator).0; text != "" && text[0] == '>'
  {
  }

  lemma AmountZero(amount: int, exact: bool)
    ensures (if exact then MoneyFromScaled(amount) else "~" + MoneyFromScaled(amount)) == "0" <==> exact && amount == 0
  {
    MoneyInjective(amount, 0);
    UnsignedOfZero();
    MarkedApart(amount);
  }

  lemma NothingLeft(numerator: int, denominator: int, q: int, r: int)
    requires denominator > 0 && q >= 0 && 0 <= r < denominator
    requires Abs(numerator) * MONEY_SCALE == q * denominator + r
    ensures numerator == 0 ==> q == 0 && r == 0
  {
    if numerator == 0 {
      RemainderUnique(0, denominator, q, r);
    }
  }

  lemma PointZero(numerator: int, denominator: int, q: int, r: int)
    requires denominator > 0 && q >= 0 && 0 <= r < denominator
    requires Abs(numerator) * MONEY_SCALE == q * denominator + r
    requires q > 0 || numerator == 0
    ensures DecimalApproximation(numerator, denominator).0 == "0" <==> numerator == 0
  {
    PointRendering(numerator, denominator, q, r);
    AmountZero(Signed(numerator, q), r == 0);
    NothingLeft(numerator, denominator, q, r);
  }

  /** "0" is printed for an exact zero and for nothing else. */
  lemma ZeroOnlyForZero(numerator: int, denominator: int)
    requires denominator > 0
    ensures DecimalApproximation(numerator, denominator).0 == "0" <==> numerator == 0
  {
    var m := Abs(numerator) * MONEY_SCALE;
    var q, r := m / denominator, m % denominator;
    assert m == q * denominator + r;
    if q == 0 && numerator != 0 {
      VanishedText(numerator, denominator);
    } else {
      PointZero(numerator, denominator, q, r);
    }
  }

  lemma BelowOne(magnitude: int, denominator: int, q: int, r: int)
    requires denominator > 0 && 0 <= r && magnitude * MONEY_SCALE == q * denominator + r
    requires magnitude < denominator
    ensures q < MONEY_SCALE
  {
    MultiplyBound(MONEY_SCALE, if q >= MONEY_SCALE then q else MONEY_SCALE, denominator);
  }

  lemma NotAnAmount(text: string)
    requires text != "" && text[0] == '>'
    ensures ScaledFromMoney(text) == None
  {
    var dot := IndexOf('.', text);
    assert dot > 0;
    var fraction := if dot < |text| then text[dot + 1..] else "";
    if |fraction| <= MONEY_PLACES {
      var numeral := text[..dot] + (fraction + Zeros(MONEY_PLACES - |fraction|));
      assert numeral[0] == '>' && !AllDigits(numeral);
    }
  }

  /** The amount a rendering shows, whether marked as truncated or not. */
  function ShownAmount(text: string): Option<int> {
    ScaledFromMoney(if text != "" && text[0] == '~' then text[1..] else text)
  }

  lemma ShownPoint(numerator: int, denominator: int, q: int, r: int)
    requires denominator > 0 && q >= 0 && 0 <= r < denominator
    requires Abs(numerator) * MONEY_SCALE == q * denominator + r
    requires q > 0 || numerator == 0
    ensures ShownAmount(DecimalApproximation(numerator, denominator).0) == Some(Signed(numerator, q))
  {
    PointRendering(numerator, denominator, q, r);
    MarkedApart(Signed(numerator, q));
  }

  /** A ratio above -1 is never printed as -1 or less: any amount printed is above -1 too. */
  lemma NeverPrintsTotalLoss(numerator: int, denominator: int)
    requires denominator > 0 && numerator + denominator > 0
    ensures var shown := ShownAmount(DecimalApproximation(numerator, denominator).0);
            shown.Some? ==> shown.value > -1_000_000
  {
    var m := Abs(numerator) * MONEY_SCALE;
    var q, r := m / denominator, m % denominator;
    assert m == q * denominator + r;
    if q == 0 && numerator != 0 {
      NotAnAmount(DecimalApproximation(numerator, denominator).0);
    } else {
      ShownPoint(numerator, denominator, q, r);
      if numerator < 0 {
        BelowOne(Abs(numerator), denominator, q, r);
      }
    }
  }

  // ----- the ratio of a position -----

  /** What an exit's quantity cost at the entry price, and what it gained over it. */
  function CostAt(units: int): Event -> int {
    (e: Event) => e.quantity * units
  }

  function GainOver(units: int): Event -> int {
    (e: Event) => e.quantity * (PriceUnits(e) - units)
  }

  lemma {:induction false} SumsOverExits(exits: seq<Event>, units: int)
    ensures Sum(CostAt(units), exits) == Sum(QuantityIn, exits) * units
    ensures Sum(GainOver(units), exits) == Sum(Consideration, exits) - Sum(QuantityIn, exits) * units
  {
    if exits == [] {
    } else {
      var front, e := exits[..|exits| - 1], exits[|exits| - 1];
      SumsOverExits(front, units);
      assert (Sum(QuantityIn, front) + e.quantity) * units == Sum(QuantityIn, front) * units + e.quantity * units;
      assert e.quantity * (PriceUnits(e) - units) == e.quantity * PriceUnits(e) - e.quantity * units;
    }
  }

  lemma PricePositive(e: Event)
    requires ValidEvent(e)
    ensures ScaledPrice(e.price) == Some(PriceUnits(e)) && PriceUnits(e) > 0
  {
    AdmittedPriceScales(e.price);
  }

  lemma {:induction false} ConsiderationPositive(exits: seq<Event>)
    requires AllValid(exits)
    ensures Sum(Consideration, exits) >= 0 && Sum(QuantityIn, exits) >= 0
    ensures Sum(QuantityIn, exits) > 0 ==> Sum(Consideration, exits) > 0
  {
    if exits == [] {
    } else {
      var front, e := exits[..|exits| - 1], exits[|exits| - 1];
      assert e in exits;
      ConsiderationPositive(front);
      PricePositive(e);
      MultiplyBound(1, PriceUnits(e), e.quantity);
    }
  }

  lemma PairAboveMinusOne(n: int, d: int, pair: (int, int))
    requires d > 0 && n + d > 0 && pair.1 > 0 && pair.0 * d == n * pair.1
    ensures pair.0 + pair.1 > 0
  {
    MultiplyBound(1, n + d, pair.1);
    assert (pair.0 + pair.1) * d == (n + d) * pair.1;
    PositiveFactor(pair.0 + pair.1, d);
  }

  /** Parsing the printed amounts back loses nothing. */
  lemma TextsToRatio(result: int, cost: int)
    requires cost > 0
    ensures var r := RatioOfTexts(MoneyFromScaled(result), MoneyFromScaled(cost));
            && r.Some? && r.value.denominator > 0
            && Reduced(result, cost) == Some((r.value.numerator, r.value.denominator))
            && (r.value.approximation, r.value.approximationIsExact)
               == DecimalApproximation(r.value.numerator, r.value.denominator)
  {
    MoneyRoundTrip(result);
    MoneyRoundTrip(cost);
    ReducedExact(result, cost);
  }

  lemma ReducedAboveMinusOne(result: int, cost: int)
    requires cost > 0 && result + cost > 0
    ensures var pair := Reduced(result, cost).value;
            pair.1 > 0 && pair.0 * cost == pair.1 * result && pair.0 + pair.1 > 0
  {
    ReducedLowestTerms(result, cost);
    PairAboveMinusOne(result, cost, Reduced(result, cost).value);
  }

  lemma CostPositive(exits: seq<Event>, opening: Event)
    requires AllValid(exits) && ValidEvent(opening) && Sum(QuantityIn, exits) > 0
    ensures var units := PriceUnits(opening);
            Sum(CostAt(units), exits) > 0 && Sum(GainOver(units), exits) + Sum(CostAt(units), exits) > 0
  {
    PricePositive(opening);
    ConsiderationPositive(exits);
    SumsOverExits(exits, PriceUnits(opening));
    MultiplyBound(1, Sum(QuantityIn, exits), PriceUnits(opening));
  }

  lemma AccountedTexts(key: Id, mine: seq<Event>, opening: Event, position: DerivedPosition, units: int, exits: nat,
                       exited: int, cost: int, consideration: int, gain: int)
    requires mine != [] && exited > 0 && gain == consideration - cost
    ensures var entry := Accounted(key, mine, opening, position, units, exits, exited, cost, consideration);
            && entry.result == Some(MoneyFromScaled(gain))
            && entry.entryCost == Some(MoneyFromScaled(cost))
  {
  }

  lemma ResolvedRatio(key: Id, mine: seq<Event>, opening: Event, position: DerivedPosition)
    requires mine != [] && AllValid(mine) && ValidEvent(opening) && Sum(QuantityIn, Filter(IsExit, mine)) > 0
    ensures var exits, units := Filter(IsExit, mine), PriceUnits(opening);
            var r := RatioEntry(Resolved(key, mine, opening, position));
            && Sum(CostAt(units), exits) > 0 && r.Success? && r.value.Some?
            && Reduced(Sum(GainOver(units), exits), Sum(CostAt(units), exits))
               == Some((r.value.value.numerator, r.value.value.denominator))
  {
    var exits, units := Filter(IsExit, mine), PriceUnits(opening);
    var gain, cost := Sum(GainOver(units), exits), Sum(CostAt(units), exits);
    CostPositive(exits, opening);
    SumsOverExits(exits, units);
    AccountedTexts(key, mine, opening, position, units, |exits|, Sum(QuantityIn, exits), cost,
                   Sum(Consideration, exits), gain);
    EntryRatio(Resolved(key, mine, opening, position), gain, cost);
  }

  lemma EntryRatio(entry: RoundTripEntry, gain: int, cost: int)
    requires cost > 0
    requires entry.result == Some(MoneyFromScaled(gain)) && entry.entryCost == Some(MoneyFromScaled(cost))
    ensures var r := RatioEntry(entry);
            && r.Success? && r.value.Some?
            && Reduced(gain, cost) == Some((r.value.value.numerator, r.value.value.denominator))
  {
    TextsToRatio(gain, cost);
  }

  /** For every position with an exit, on any valid evidence: the ratio is the gain over the entry price divided
      by the cost at the entry price, over the visible exits, exactly; reduced; and above -1. */
  lemma RatioOfPosition(visible: seq<Event>, key: Id, effective: Moment)
    requires AllValid(visible) && Stamped(visible, effective) && KeyEvents(visible, key) != []
    requires RoundTripAt(visible, key, effective).exitedQuantity > 0
    ensures exists e :: e in KeyEvents(visible, key) && e.kind == Opened
    ensures var exits := Filter(IsExit, KeyEvents(visible, key));
            var units := PriceUnits(OpeningIn(KeyEvents(visible, key)));
            var gain, cost := Sum(GainOver(units), exits), Sum(CostAt(units), exits);
            var r := RatioEntry(RoundTripAt(visible, key, effective));
            && r.Success? && r.value.Some?
            && cost > 0 && Reduced(gain, cost) == Some((r.value.value.numerator, r.value.value.denominator))
            && r.value.value.numerator * cost == r.value.value.denominator * gain
            && r.value.value.denominator > 0 && r.value.value.numerator + r.value.value.denominator > 0
  {
    FoldedWhenExited(visible, key, effective);
    FoldedEntry(visible, key, effective);
    var mine := KeyEvents(visible, key);
    var opening := OpeningIn(mine);
    ResolvedRatio(key, mine, opening, DeriveOne(key, Ordered(mine)).value);
    CostPositive(Filter(IsExit, mine), opening);
    ReducedAboveMinusOne(Sum(GainOver(PriceUnits(opening)), Filter(IsExit, mine)),
                         Sum(CostAt(PriceUnits(opening)), Filter(IsExit, mine)));
  }

  lemma FoldedWhenExited(visible: seq<Event>, key: Id, effective: Moment)
    requires Stamped(visible, effective) && KeyEvents(visible, key) != []
    requires RoundTripAt(visible, key, effective).exitedQuantity > 0
    ensures Fold(Ordered(KeyEvents(visible, key))).Success?
  {
    GroupIsOneKey(visible, key, effective);
  }

  /** Parsing the two amounts of an entry back never raises. */
  lemma RatioNeverRaises(visible: seq<Event>, key: Id, effective: Moment)
    requires AllValid(visible) && Stamped(visible, effective) && KeyEvents(visible, key) != []
    ensures RatioEntry(RoundTripAt(visible, key, effective)).Success? ==>
              RatioEntry(RoundTripAt(visible, key, effective)).value.Some?
  {
    if RoundTripAt(visible, key, effective).result.Some? {
      MoneyMeansExit(visible, key, effective);
      RatioOfPosition(visible, key, effective);
    }
  }

  lemma VisibleRatioNeverRaises(events: seq<Event>, key: Id, effective: Moment, knowledge: Moment)
    requires AllValid(events) && VisibleKey(events, key, effective, knowledge) != []
    ensures var entry := RatioEntry(RoundTripFor(events, key, effective, knowledge));
            entry.Success? ==> entry.value.Some?
  {
    var visible := Filter(UpTo(effective), EventsKnownBy(events, knowledge));
    RatioNeverRaises(visible, key, effective);
  }

  lemma PresenceByStatus(entry: RoundTripEntry)
    requires entry.result.Some? == entry.entryCost.Some? == SaysExited(entry.status)
    ensures RatioEntry(entry).Success? <==> SaysExited(entry.status)
    ensures RatioEntry(entry) == Failure(UnresolvedKnowledge) <==> entry.status == UnresolvedSequence
    ensures RatioEntry(entry) == Failure(NoExit) <==> entry.status == NoExitAssertedYet
  {
  }

  /** On ledgers built by appends a ratio is present, and never a raise, exactly when the status says something has
      exited; and an absent one says whether the position is unresolved or has simply not exited. */
  lemma RatioPresence(events: seq<Event>, key: Id, effective: Moment, knowledge: Moment)
    requires LedgerInvariant(events) && VisibleKey(events, key, effective, knowledge) != []
    ensures var entry := RoundTripFor(events, key, effective, knowledge);
            && (RatioEntry(entry).Success? <==> SaysExited(entry.status))
            && (RatioEntry(entry).Success? ==> RatioEntry(entry).value.Some?)
            && (RatioEntry(entry) == Failure(UnresolvedKnowledge) <==> entry.status == UnresolvedSequence)
            && (RatioEntry(entry) == Failure(NoExit) <==> entry.status == NoExitAssertedYet)
  {
    ExitedIffStatus(events, key, effective, knowledge);
    PresenceByStatus(RoundTripFor(events, key, effective, knowledge));
    VisibleRatioNeverRaises(events, key, effective, knowledge);
  }
}
