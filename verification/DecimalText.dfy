/** Exact money as text: the printer, its parser, and the scaling of asserted prices.

    A `Decimal` is what `as_tuple()` shows of one: a sign, decimal digits and an exponent. Money is an
    integer count of 10^-6 units, printed without any rounding. */
module DecimalText {
  import opened Wrappers

  /** Decimal places of a persisted price; money is an integer count of 10^-MONEY_PLACES units. */
  const MONEY_PLACES: nat := 6
  const MAX_INTEGER_DIGITS: nat := 14
  const MONEY_SCALE: int := 1_000_000

  function Pow10(k: nat): (p: nat)
    ensures p > 0
  {
    if k == 0 then 1 else 10 * Pow10(k - 1)
  }

  lemma {:induction false} Pow10Sum(a: nat, b: nat)
    ensures Pow10(a + b) == Pow10(a) * Pow10(b)
  {
    if a == 0 {
    } else {
      Pow10Sum(a - 1, b);
      assert 10 * (Pow10(a - 1) * Pow10(b)) == (10 * Pow10(a - 1)) * Pow10(b);
    }
  }

  lemma {:induction false} Pow10Monotone(a: nat, b: nat)
    requires a <= b
    ensures Pow10(a) <= Pow10(b)
  {
    if a == b {
    } else {
      Pow10Monotone(a, b - 1);
    }
  }

  lemma Pow10Six()
    ensures Pow10(6) == MONEY_SCALE
  {
    assert Pow10(3) == 1000;
    Pow10Sum(3, 3);
  }

  // ----- digits -----

  predicate IsDigit(c: char) {
    '0' <= c <= '9'
  }

  predicate AllDigits(s: string) {
    forall i :: 0 <= i < |s| ==> IsDigit(s[i])
  }

  function DigitValue(c: char): (d: nat)
    requires IsDigit(c)
    ensures d < 10
  {
    c as int - '0' as int
  }

  function DigitChar(d: nat): (c: char)
    requires d < 10
    ensures IsDigit(c) && DigitValue(c) == d
  {
    ('0' as int + d) as char
  }

  /** `str(n)`. */
  function NatText(n: nat): (s: string)
    ensures s != "" && AllDigits(s)
  {
    if n < 10 then [DigitChar(n)] else NatText(n / 10) + [DigitChar(n % 10)]
  }

  /** `int(s)` of a text of digits. */
  function NatValue(s: string): nat
    requires AllDigits(s)
  {
    if s == "" then 0 else NatValue(s[..|s| - 1]) * 10 + DigitValue(s[|s| - 1])
  }

  function Zeros(k: nat): (s: string)
    ensures |s| == k && AllDigits(s) && forall i :: 0 <= i < k ==> s[i] == '0'
  {
    seq(k, _ => '0')
  }

  /** `f"{n:0{width}d}"`. */
  function Padded(n: nat, width: nat): (s: string)
    ensures AllDigits(s)
  {
    var text := NatText(n);
    if |text| < width then Zeros(width - |text|) + text else text
  }

  /** `s.rstrip(c)`. */
  function StripTrailing(c: char, s: string): (r: string)
    ensures r <= s && (r == "" || r[|r| - 1] != c)
    ensures forall i :: |r| <= i < |s| ==> s[i] == c
  {
    if s != "" && s[|s| - 1] == c then StripTrailing(c, s[..|s| - 1]) else s
  }

  /** Where `c` first occurs, or the length. */
  function IndexOf(c: char, s: string): (i: nat)
    ensures i <= |s| && (i < |s| ==> s[i] == c)
    ensures forall j :: 0 <= j < i ==> s[j] != c
  {
    if s == "" || s[0] == c then 0 else 1 + IndexOf(c, s[1..])
  }

  lemma TimesTen(x: nat, p: nat)
    ensures (x * p) * 10 == x * (10 * p)
  {
  }

  lemma ValueNext(s: string, c: char)
    requires AllDigits(s) && IsDigit(c)
    ensures AllDigits(s + [c]) && NatValue(s + [c]) == NatValue(s) * 10 + DigitValue(c)
  {
    assert (s + [c])[..|s|] == s;
  }

  lemma {:induction false} ValueConcat(a: string, b: string)
    requires AllDigits(a) && AllDigits(b)
    ensures AllDigits(a + b) && NatValue(a + b) == NatValue(a) * Pow10(|b|) + NatValue(b)
  {
    if b == "" {
      assert a + b == a;
    } else {
      var front, last := b[..|b| - 1], b[|b| - 1];
      assert b == front + [last];
      ValueConcat(a, front);
      assert a + b == (a + front) + [last];
      ValueNext(a + front, last);
      ValueNext(front, last);
      TimesTen(NatValue(a), Pow10(|front|));
    }
  }

  lemma {:induction false} ValueOfZeros(k: nat)
    ensures NatValue(Zeros(k)) == 0
  {
    if k == 0 {
    } else {
      assert Zeros(k)[..k - 1] == Zeros(k - 1);
      ValueOfZeros(k - 1);
    }
  }

  lemma {:induction false} ValueOfText(n: nat)
    ensures NatValue(NatText(n)) == n
  {
    if n < 10 {
      assert NatText(n)[..0] == "";
    } else {
      ValueOfText(n / 10);
      assert NatText(n)[..|NatText(n)| - 1] == NatText(n / 10);
    }
  }

  lemma ValueOfPadded(n: nat, width: nat)
    ensures NatValue(Padded(n, width)) == n
  {
    ValueOfText(n);
    if |NatText(n)| < width {
      ValueOfZeros(width - |NatText(n)|);
      ValueConcat(Zeros(width - |NatText(n)|), NatText(n));
    }
  }

  lemma {:induction false} TextLength(n: nat, k: nat)
    requires k >= 1 && n < Pow10(k)
    ensures |NatText(n)| <= k
  {
    if n < 10 {
    } else {
      assert k > 1 by {
        assert Pow10(1) == 10;
      }
      assert n / 10 < Pow10(k - 1);
      TextLength(n / 10, k - 1);
    }
  }

  lemma {:induction false} ValueBound(s: string)
    requires AllDigits(s)
    ensures NatValue(s) < Pow10(|s|)
  {
    if s == "" {
    } else {
      ValueBound(s[..|s| - 1]);
    }
  }

  /** A numeral without a leading zero is the text of its value. */
  lemma TextNext(n: nat, c: char)
    requires n > 0 && IsDigit(c)
    ensures NatText(n * 10 + DigitValue(c)) == NatText(n) + [c]
  {
    assert (n * 10 + DigitValue(c)) / 10 == n && (n * 10 + DigitValue(c)) % 10 == DigitValue(c);
  }

  lemma TextStep(front: string, last: char)
    requires AllDigits(front) && IsDigit(last) && NatValue(front) > 0 && NatText(NatValue(front)) == front
    ensures AllDigits(front + [last]) && NatValue(front + [last]) >= 10
    ensures NatText(NatValue(front + [last])) == front + [last]
  {
    ValueNext(front, last);
    TextNext(NatValue(front), last);
  }

  lemma TextOfDigit(c: char)
    requires IsDigit(c)
    ensures NatValue([c]) == DigitValue(c) && NatText(NatValue([c])) == [c]
    ensures c != '0' ==> NatValue([c]) > 0
  {
    assert [c][..0] == "" && NatValue("") == 0;
  }

  lemma {:induction false} TextOfValue(s: string)
    requires AllDigits(s) && s != "" && (|s| == 1 || s[0] != '0')
    ensures NatText(NatValue(s)) == s
    ensures |s| > 1 ==> NatValue(s) >= 10
    ensures s[0] != '0' ==> NatValue(s) > 0
  {
    if |s| == 1 {
      assert s == [s[0]];
      TextOfDigit(s[0]);
    } else {
      var front, last := s[..|s| - 1], s[|s| - 1];
      assert s == front + [last] && front[0] == s[0];
      TextOfValue(front);
      TextStep(front, last);
    }
  }

  lemma ZeroInFront(rest: string)
    requires AllDigits(rest) && Padded(NatValue(rest), |rest|) == rest && rest != ""
    ensures AllDigits(Zeros(1) + rest) && NatValue(Zeros(1) + rest) == NatValue(rest)
    ensures Padded(NatValue(rest), |rest| + 1) == Zeros(1) + rest
  {
    ValueConcat(Zeros(1), rest);
    ValueOfZeros(1);
    ValueBound(rest);
    TextLength(NatValue(rest), |rest|);
    PaddedWider(NatValue(rest), |rest|);
  }

  lemma {:induction false} PaddedOfValue(s: string)
    requires AllDigits(s) && s != ""
    ensures Padded(NatValue(s), |s|) == s
  {
    if |s| == 1 || s[0] != '0' {
      TextOfValue(s);
    } else {
      var rest := s[1..];
      assert s == Zeros(1) + rest;
      PaddedOfValue(rest);
      ZeroInFront(rest);
    }
  }

  lemma PaddedWider(n: nat, width: nat)
    requires |NatText(n)| <= width
    ensures Padded(n, width + 1) == Zeros(1) + Padded(n, width)
  {
    var text := NatText(n);
    assert Zeros(width + 1 - |text|) == Zeros(1) + Zeros(width - |text|);
    if |text| == width {
      assert Zeros(0) + text == text;
    }
  }

  // ----- the money printer and its parser -----

  function Abs(n: int): (a: nat)
    ensures a == n || a == -n
  {
    if n < 0 then -n else n
  }

  /** The text of a magnitude: whole part, and the decimals without trailing zeros. */
  function UnsignedMoney(n: nat): string {
    var whole, fraction := n / MONEY_SCALE, n % MONEY_SCALE;
    var rendered := StripTrailing('0', Padded(fraction, MONEY_PLACES));
    Joined(NatText(whole), rendered)
  }

  function Joined(whole: string, fraction: string): string {
    if fraction == "" then whole else whole + "." + fraction
  }

  function WholePart(text: string): string {
    text[..IndexOf('.', text)]
  }

  function FractionPart(text: string): string {
    var dot := IndexOf('.', text);
    if dot < |text| then text[dot + 1..] else ""
  }

  function MoneyFromScaled(scaled: int): string {
    (if scaled < 0 then "-" else "") + UnsignedMoney(Abs(scaled))
  }

  /** Split at the first point, pad the decimals to six, read the digits: `None` where the source raises,
      that is for more than six decimals or a part that is no numeral. */
  function UnsignedValue(digits: string): (r: Option<int>)
    ensures r.Some? ==> r.value >= 0
  {
    PartsValue(WholePart(digits), FractionPart(digits))
  }

  function PartsValue(whole: string, fraction: string): (r: Option<int>)
    ensures r.Some? ==> r.value >= 0
  {
    if |fraction| > MONEY_PLACES then None
    else
      var padded := fraction + Zeros(MONEY_PLACES - |fraction|);
      if AllDigits(whole + padded) then Some(NatValue(whole + padded)) else None
  }

  function ScaledFromMoney(rendered: string): Option<int> {
    WithSign(UnsignedValue, rendered)
  }

  /** Read a sign, and the rest with `parse`. */
  function WithSign(parse: string -> Option<int>, rendered: string): Option<int> {
    if rendered != "" && rendered[0] == '-' then Negated(parse(rendered[1..])) else parse(rendered)
  }

  function Negated(amount: Option<int>): Option<int> {
    match amount
    case None => None
    case Some(n) => Some(-n)
  }

  /** A whole part without leading zeros and at most six decimals that do not end in zero. */
  predicate CanonicalUnsigned(body: string) {
    var dot := IndexOf('.', body);
    && 0 < dot && AllDigits(body[..dot]) && (dot == 1 || body[0] != '0')
    && (dot < |body| ==>
          && 1 <= |body| - dot - 1 <= MONEY_PLACES
          && AllDigits(body[dot + 1..]) && body[|body| - 1] != '0')
  }

  /** The one text of an amount: no exponent, no trailing fractional zero, no negative zero. */
  predicate CanonicalMoney(s: string) {
    if s != "" && s[0] == '-' then s[1..] != "0" && CanonicalUnsigned(s[1..]) else CanonicalUnsigned(s)
  }

  /** The decimals of an amount: stripping the zeros off the six padded digits loses nothing. */
  lemma FractionDigits(fraction: nat)
    requires fraction < MONEY_SCALE
    ensures var padded := Padded(fraction, MONEY_PLACES);
            var r := StripTrailing('0', padded);
            && |padded| == MONEY_PLACES && padded == r + Zeros(MONEY_PLACES - |r|)
            && AllDigits(r) && (r == "" <==> fraction == 0)
  {
    Pow10Six();
    TextLength(fraction, MONEY_PLACES);
    var padded := Padded(fraction, MONEY_PLACES);
    var r := StripTrailing('0', padded);
    assert |padded| == MONEY_PLACES;
    assert padded == r + Zeros(MONEY_PLACES - |r|);
    ValueOfPadded(fraction, MONEY_PLACES);
    if r == "" {
      ValueOfZeros(MONEY_PLACES);
      assert padded == Zeros(MONEY_PLACES);
    } else {
      PositiveValue(r, MONEY_PLACES - |r|);
    }
  }

  lemma PositiveValue(s: string, k: nat)
    requires AllDigits(s) && s != "" && s[|s| - 1] != '0'
    ensures AllDigits(s + Zeros(k)) && NatValue(s + Zeros(k)) > 0
  {
    assert NatValue(s) > 0;
    ValueConcat(s, Zeros(k));
    ValueOfZeros(k);
    assert NatValue(s) * Pow10(k) > 0;
  }

  lemma {:induction false} IndexOfIn(c: char, s: string, i: nat)
    requires i <= |s| && (i < |s| ==> s[i] == c) && forall j :: 0 <= j < i ==> s[j] != c
    ensures IndexOf(c, s) == i
  {
    if i == 0 {
    } else {
      IndexOfIn(c, s[1..], i - 1);
    }
  }

  /** The parser cuts a printed magnitude exactly where the printer joined it. */
  lemma MoneyParts(n: nat)
    ensures var text := UnsignedMoney(n);
            var whole := NatText(n / MONEY_SCALE);
            var r := StripTrailing('0', Padded(n % MONEY_SCALE, MONEY_PLACES));
            && IndexOf('.', text) == |whole| && text[..|whole|] == whole && IsDigit(text[0])
            && WholePart(text) == whole && FractionPart(text) == r
            && (|whole| < |text| <==> r != "")
  {
    var whole := NatText(n / MONEY_SCALE);
    var r := StripTrailing('0', Padded(n % MONEY_SCALE, MONEY_PLACES));
    CutJoined(whole, r);
  }

  lemma CutJoined(whole: string, r: string)
    requires AllDigits(whole)
    ensures var text := Joined(whole, r);
            && IndexOf('.', text) == |whole| && text[..|whole|] == whole
            && WholePart(text) == whole && FractionPart(text) == r
            && (|whole| < |text| <==> r != "")
  {
    var text := Joined(whole, r);
    assert text[..|whole|] == whole;
    forall j | 0 <= j < |whole|
      ensures text[j] != '.'
    {
      assert text[j] == whole[j] && IsDigit(whole[j]);
    }
    IndexOfIn('.', text, |whole|);
  }

  lemma JoinedValue(whole: string, padded: string)
    requires AllDigits(whole) && AllDigits(padded) && |padded| == MONEY_PLACES
    ensures AllDigits(whole + padded)
    ensures NatValue(whole + padded) == NatValue(whole) * MONEY_SCALE + NatValue(padded)
    ensures NatValue(padded) < MONEY_SCALE
  {
    ValueConcat(whole, padded);
    ValueBound(padded);
    Pow10Six();
  }

  lemma PartsOfMoney(whole: nat, fraction: nat)
    requires fraction < MONEY_SCALE
    ensures PartsValue(NatText(whole), StripTrailing('0', Padded(fraction, MONEY_PLACES)))
         == Some(whole * MONEY_SCALE + fraction)
  {
    var padded := Padded(fraction, MONEY_PLACES);
    FractionDigits(fraction);
    JoinedValue(NatText(whole), padded);
    ValueOfText(whole);
    ValueOfPadded(fraction, MONEY_PLACES);
  }

  lemma UnsignedRoundTrip(n: nat)
    ensures UnsignedValue(UnsignedMoney(n)) == Some(n)
  {
    MoneyParts(n);
    PartsOfMoney(n / MONEY_SCALE, n % MONEY_SCALE);
  }

  lemma SignedValue(parse: string -> Option<int>, text: string)
    requires text != "" && text[0] != '-'
    ensures WithSign(parse, "" + text) == parse(text) && WithSign(parse, "-" + text) == Negated(parse(text))
  {
    assert "" + text == text;
    assert ("-" + text)[1..] == text;
  }

  lemma Unsigned(text: string)
    requires text != "" && text[0] != '-'
    ensures ScaledFromMoney(text) == UnsignedValue(text)
  {
  }

  lemma Signed(text: string)
    requires text != "" && text[0] == '-'
    ensures ScaledFromMoney(text) == Negated(UnsignedValue(text[1..]))
  {
  }

  /** Parsing a printed amount gives the amount back, for every integer. */
  lemma MoneyRoundTrip(scaled: int)
    ensures ScaledFromMoney(MoneyFromScaled(scaled)) == Some(scaled)
  {
    UnsignedRoundTrip(Abs(scaled));
    MoneyParts(Abs(scaled));
    SignedValue(UnsignedValue, UnsignedMoney(Abs(scaled)));
  }

  lemma {:induction false} TextLeadingDigit(n: nat)
    ensures n > 0 ==> NatText(n)[0] != '0'
    ensures n == 0 ==> NatText(n) == "0"
  {
    if n < 10 {
    } else {
      TextLeadingDigit(n / 10);
    }
  }

  lemma UnsignedIsCanonical(n: nat)
    ensures CanonicalUnsigned(UnsignedMoney(n))
    ensures n > 0 ==> UnsignedMoney(n) != "0"
  {
    var text, whole := UnsignedMoney(n), NatText(n / MONEY_SCALE);
    MoneyParts(n);
    FractionDigits(n % MONEY_SCALE);
    TextLeadingDigit(n / MONEY_SCALE);
    assert text[0] == whole[0];
    if |whole| < |text| {
      var r := StripTrailing('0', Padded(n % MONEY_SCALE, MONEY_PLACES));
      assert text[|text| - 1] == r[|r| - 1];
    }
  }

  lemma SignedCanonical(text: string)
    requires text != "" && IsDigit(text[0]) && CanonicalUnsigned(text)
    ensures CanonicalMoney("" + text) && (text != "0" ==> CanonicalMoney("-" + text))
  {
    assert "" + text == text && text[0] != '-';
    assert ("-" + text)[0] == '-' && ("-" + text)[1..] == text;
  }

  lemma MoneyIsCanonical(scaled: int)
    ensures CanonicalMoney(MoneyFromScaled(scaled))
  {
    UnsignedIsCanonical(Abs(scaled));
    MoneyParts(Abs(scaled));
    SignedCanonical(UnsignedMoney(Abs(scaled)));
  }

  lemma {:induction false} StripPadding(s: string, k: nat)
    requires s == "" || s[|s| - 1] != '0'
    ensures StripTrailing('0', s + Zeros(k)) == s
  {
    if k == 0 {
      assert s + Zeros(k) == s;
    } else {
      assert (s + Zeros(k))[..|s| + k - 1] == s + Zeros(k - 1);
      StripPadding(s, k - 1);
    }
  }

  lemma Split(whole: nat, fraction: nat)
    requires fraction < MONEY_SCALE
    ensures (whole * MONEY_SCALE + fraction) / MONEY_SCALE == whole
    ensures (whole * MONEY_SCALE + fraction) % MONEY_SCALE == fraction
  {
  }

  /** A whole part without leading zeros and at most six decimals that do not end in zero. */
  predicate CanonicalParts(whole: string, fraction: string) {
    && AllDigits(whole) && whole != "" && (|whole| == 1 || whole[0] != '0')
    && AllDigits(fraction) && |fraction| <= MONEY_PLACES
    && (fraction == "" || fraction[|fraction| - 1] != '0')
  }

  lemma JoinedText(whole: string, fraction: string)
    requires CanonicalParts(whole, fraction)
    ensures var padded := fraction + Zeros(MONEY_PLACES - |fraction|);
            && AllDigits(padded) && NatText(NatValue(whole)) == whole
            && Padded(NatValue(padded), MONEY_PLACES) == padded && StripTrailing('0', padded) == fraction
  {
    TextOfValue(whole);
    PaddedOfValue(fraction + Zeros(MONEY_PLACES - |fraction|));
    StripPadding(fraction, MONEY_PLACES - |fraction|);
  }

  lemma PartsReprint(whole: string, fraction: string)
    requires CanonicalParts(whole, fraction)
    ensures PartsValue(whole, fraction).Some?
    ensures UnsignedMoney(PartsValue(whole, fraction).value) == Joined(whole, fraction)
  {
    var padded := fraction + Zeros(MONEY_PLACES - |fraction|);
    JoinedText(whole, fraction);
    JoinedValue(whole, padded);
    PrintedParts(NatValue(whole), NatValue(padded));
  }

  lemma PrintedParts(whole: nat, fraction: nat)
    requires fraction < MONEY_SCALE
    ensures UnsignedMoney(whole * MONEY_SCALE + fraction)
         == Joined(NatText(whole), StripTrailing('0', Padded(fraction, MONEY_PLACES)))
  {
    Split(whole, fraction);
  }

  lemma CanonicalCut(body: string)
    requires CanonicalUnsigned(body)
    ensures CanonicalParts(WholePart(body), FractionPart(body))
    ensures body == Joined(WholePart(body), FractionPart(body))
  {
    var dot := IndexOf('.', body);
    if dot < |body| {
      assert FractionPart(body)[|body| - dot - 2] == body[|body| - 1];
      assert body == body[..dot] + "." + body[dot + 1..];
    }
  }

  lemma UnsignedReprints(body: string)
    requires CanonicalUnsigned(body)
    ensures UnsignedValue(body).Some? && UnsignedMoney(UnsignedValue(body).value) == body
    ensures UnsignedValue(body).value == 0 ==> body == "0"
  {
    CanonicalCut(body);
    PartsReprint(WholePart(body), FractionPart(body));
    UnsignedOfZero();
  }

  lemma UnsignedOfZero()
    ensures UnsignedMoney(0) == "0"
  {
    FractionDigits(0);
    TextLeadingDigit(0);
  }

  /** Every canonical text is printed from the amount it parses to. With `MoneyRoundTrip`, printing is a
      bijection between the integers and the canonical texts. */
  lemma CanonicalReprints(s: string)
    requires CanonicalMoney(s)
    ensures ScaledFromMoney(s).Some? && MoneyFromScaled(ScaledFromMoney(s).value) == s
  {
    if s != "" && s[0] == '-' {
      Signed(s);
      UnsignedReprints(s[1..]);
      SignedMoney(UnsignedValue(s[1..]).value);
      assert s == "-" + s[1..];
    } else {
      CanonicalUnsignedStart(s);
      Unsigned(s);
      UnsignedReprints(s);
      SignedMoney(UnsignedValue(s).value);
    }
  }

  lemma CanonicalUnsignedStart(s: string)
    requires CanonicalUnsigned(s)
    ensures s != ""
  {
  }

  lemma SignedMoney(n: int)
    requires n >= 0
    ensures MoneyFromScaled(n) == UnsignedMoney(n)
    ensures n > 0 ==> MoneyFromScaled(-n) == "-" + UnsignedMoney(n)
  {
    assert "" + UnsignedMoney(n) == UnsignedMoney(n);
  }

  // ----- asserted prices -----

  datatype Decimal =
    | Finite(negative: bool, digits: seq<nat>, exponent: int)
    | Infinite(negative: bool)
    | NotANumber

  /** The digit tuples `as_tuple()` can show: decimal digits, and no leading zero except in zero itself. */
  predicate WellFormed(d: Decimal) {
    d.Finite? ==>
      && d.digits != [] && (forall i :: 0 <= i < |d.digits| ==> d.digits[i] < 10)
      && (|d.digits| == 1 || d.digits[0] != 0)
  }

  /** A `Decimal` as Python holds one. */
  type Price = d: Decimal | WellFormed(d) witness Finite(false, [1], 0)

  function DigitsText(digits: seq<nat>): (s: string)
    requires forall i :: 0 <= i < |digits| ==> digits[i] < 10
    ensures |s| == |digits| && AllDigits(s)
    ensures forall i :: 0 <= i < |s| ==> DigitValue(s[i]) == digits[i]
  {
    seq(|digits|, i requires 0 <= i < |digits| => DigitChar(digits[i]))
  }

  function Coefficient(digits: seq<nat>): nat
    requires forall i :: 0 <= i < |digits| ==> digits[i] < 10
  {
    if digits == [] then 0 else Coefficient(digits[..|digits| - 1]) * 10 + digits[|digits| - 1]
  }

  /** A price as an integer count of 10^-6 units; `None` where the source raises. */
  function ScaledPrice(price: Price): Option<int>
  {
    if !price.Finite? then None
    else
      var shift := price.exponent + MONEY_PLACES;
      if shift < 0 then None
      else
        var unscaled: int := NatValue(DigitsText(price.digits) + Zeros(shift));
        Some(if price.negative then -unscaled else unscaled)
  }

  /** What the ledger admits as a price: positive, finite, and storable in NUMERIC(20, 6). */
  predicate AdmittedPrice(price: Price)
  {
    && price.Finite? && !price.negative && Coefficient(price.digits) > 0
    && |price.digits| + price.exponent <= MAX_INTEGER_DIGITS
    && -price.exponent <= MONEY_PLACES
  }

  lemma {:induction false} DigitsValue(digits: seq<nat>)
    requires forall i :: 0 <= i < |digits| ==> digits[i] < 10
    ensures NatValue(DigitsText(digits)) == Coefficient(digits)
  {
    if digits == [] {
    } else {
      DigitsValue(digits[..|digits| - 1]);
      assert DigitsText(digits)[..|digits| - 1] == DigitsText(digits[..|digits| - 1]) by {
        forall i | 0 <= i < |digits| - 1
          ensures DigitsText(digits)[i] == DigitsText(digits[..|digits| - 1])[i]
        {
          assert DigitsText(digits)[i] == DigitChar(digits[i]);
        }
      }
    }
  }

  lemma ScaledPriceExact(price: Price)
    requires price.Finite? && price.exponent + MONEY_PLACES >= 0
    ensures ScaledPrice(price).Some?
    ensures ScaledPrice(price).value
         == (if price.negative then -1 else 1) * (Coefficient(price.digits) * Pow10(price.exponent + MONEY_PLACES))
  {
    var shift := price.exponent + MONEY_PLACES;
    DigitsValue(price.digits);
    ValueOfZeros(shift);
    ValueConcat(DigitsText(price.digits), Zeros(shift));
  }

  lemma ProductBelow(c: nat, d: nat, p: nat)
    requires 0 < c < d && p > 0
    ensures 0 < c * p < d * p
  {
  }

  /** Every price the ledger admits scales exactly, to an integer strictly between 0 and 10^20. */
  lemma AdmittedPriceScales(price: Price)
    requires AdmittedPrice(price)
    ensures ScaledPrice(price).Some? && 0 < ScaledPrice(price).value < Pow10(20)
  {
    var n, shift := |price.digits|, price.exponent + MONEY_PLACES;
    ScaledPriceExact(price);
    DigitsValue(price.digits);
    ValueBound(DigitsText(price.digits));
    ProductBelow(Coefficient(price.digits), Pow10(n), Pow10(shift));
    Pow10Sum(n, shift);
    Pow10Monotone(n + shift, 20);
  }

  /** Two digit tuples denote the same number: equal once brought to the smaller exponent. */
  predicate SameValue(a: Price, b: Price)
    requires a.Finite? && b.Finite?
  {
    if a.exponent <= b.exponent
    then Coefficient(a.digits) == Coefficient(b.digits) * Pow10(b.exponent - a.exponent)
    else Coefficient(b.digits) == Coefficient(a.digits) * Pow10(a.exponent - b.exponent)
  }

  lemma ProductsEqual(x: nat, y: nat, p: nat, q: nat)
    requires p > 0
    ensures x * p == y * (p * q) <==> x == y * q
  {
    assert y * (p * q) == (y * q) * p;
    if x * p == (y * q) * p {
      assert (x - y * q) * p == 0;
    }
  }

  lemma ScaledSameIff(a: Price, b: Price)
    requires AdmittedPrice(a) && AdmittedPrice(b)
    requires a.exponent <= b.exponent
    ensures ScaledPrice(a) == ScaledPrice(b)
       <==> Coefficient(a.digits) == Coefficient(b.digits) * Pow10(b.exponent - a.exponent)
  {
    var base := a.exponent + MONEY_PLACES;
    ScaledPriceExact(a);
    ScaledPriceExact(b);
    Pow10Sum(base, b.exponent - a.exponent);
    ProductsEqual(Coefficient(a.digits), Coefficient(b.digits), Pow10(base), Pow10(b.exponent - a.exponent));
  }

  lemma ScaledSame(a: Price, b: Price)
    requires AdmittedPrice(a) && AdmittedPrice(b)
    ensures ScaledPrice(a) == ScaledPrice(b) <==> SameValue(a, b)
  {
    if a.exponent <= b.exponent {
      ScaledSameIff(a, b);
    } else {
      ScaledSameIff(b, a);
    }
  }

  lemma MoneyInjective(m: int, n: int)
    ensures MoneyFromScaled(m) == MoneyFromScaled(n) <==> m == n
  {
    MoneyRoundTrip(m);
    MoneyRoundTrip(n);
  }

  /** Admitted prices print alike exactly when they are the same number, whatever digits and exponent
      carry it: `750` and `750.000000` are one text, and different prices never share one. */
  lemma SameTextIffSameValue(a: Price, b: Price)
    requires AdmittedPrice(a) && AdmittedPrice(b)
    ensures ScaledPrice(a).Some? && ScaledPrice(b).Some?
    ensures MoneyFromScaled(ScaledPrice(a).value) == MoneyFromScaled(ScaledPrice(b).value) <==> SameValue(a, b)
  {
    AdmittedPriceScales(a);
    AdmittedPriceScales(b);
    ScaledSame(a, b);
    MoneyInjective(ScaledPrice(a).value, ScaledPrice(b).value);
  }

  // ----- what the parser accepts -----

  /** The value of a whole part and at most six decimals. */
  function PartsAmount(whole: string, fraction: string): int
    requires AllDigits(whole) && AllDigits(fraction) && |fraction| <= 6
  {
    NatValue(whole) * MONEY_SCALE + NatValue(fraction) * Pow10(6 - |fraction|)
  }

  lemma PartsParsed(whole: string, fraction: string)
    ensures PartsValue(whole, fraction).Some?
       <==> AllDigits(whole) && AllDigits(fraction) && |fraction| <= 6
    ensures AllDigits(whole) && AllDigits(fraction) && |fraction| <= 6 ==>
              PartsValue(whole, fraction) == Some(PartsAmount(whole, fraction))
  {
    if |fraction| <= MONEY_PLACES {
      var zeros := Zeros(MONEY_PLACES - |fraction|);
      if AllDigits(whole + (fraction + zeros)) {
        DigitsOfParts(whole, fraction, zeros);
      }
      if AllDigits(whole) && AllDigits(fraction) {
        JoinedValue(whole, fraction + zeros);
        ValueConcat(fraction, zeros);
        ValueOfZeros(MONEY_PLACES - |fraction|);
      }
    }
  }

  lemma DigitsOfParts(whole: string, fraction: string, zeros: string)
    requires AllDigits(whole + (fraction + zeros))
    ensures AllDigits(whole) && AllDigits(fraction)
  {
    var all := whole + (fraction + zeros);
    forall i | 0 <= i < |whole|
      ensures IsDigit(whole[i])
    {
      assert all[i] == whole[i];
    }
    forall i | 0 <= i < |fraction|
      ensures IsDigit(fraction[i])
    {
      assert all[|whole| + i] == fraction[i];
    }
  }

  /** A text is read exactly when, behind an optional sign and cut at its first point, it has digits only, at most six
      of them decimals; and then it is read as that number of millionths. */
  lemma ParsedExactly(text: string, negative: bool, body: string)
    requires text == if negative then "-" + body else body
    requires !negative ==> body == "" || body[0] != '-'
    ensures var whole, fraction := WholePart(body), FractionPart(body);
            if AllDigits(whole) && AllDigits(fraction) && |fraction| <= 6 then
              ScaledFromMoney(text)
              == Some(if negative then -PartsAmount(whole, fraction) else PartsAmount(whole, fraction))
            else ScaledFromMoney(text) == None
  {
    PartsParsed(WholePart(body), FractionPart(body));
    if negative {
      assert text[0] == '-' && text[1..] == body;
    }
  }
}
