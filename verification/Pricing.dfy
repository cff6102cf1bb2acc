/**
  Prices between text and micro-cents (internal/gateway/handlers.go, microCentsPerMillionToPriceString, and
  internal/console/openrouter.go, openRouterPriceToMicroCentsPerMillion). Go's `big.Rat` is a fraction that
  need not be in lowest terms here: every result is shown to depend on the number only. Its reader is a
  parameter that has to read plain decimals right.
*/
module Pricing {
  import opened Integers
  import opened Options
  import Text

  datatype Ratio = Ratio(num: int, den: Positive)

  predicate SameNumber(a: Ratio, b: Ratio)
  {
    a.num * b.den == b.num * a.den
  }

  const SCALE: Positive := 100_000_000_000_000

  const DEFAULT_RATE := "8"

  // ----- rounding

  function Round(n: int, d: Positive): int
  {
    var (quotient, remainder) := QuoRem(n, d);
    if 2 * remainder >= d then quotient + 1 else quotient
  }

  /** `q` is `n / d` rounded half up: `q - 1/2 <= n / d < q + 1/2`. */
  predicate IsHalfUp(q: int, n: int, d: Positive)
  {
    (2 * q - 1) * d <= 2 * n < (2 * q + 1) * d
  }

  lemma Cancel(a: int, b: int, d: Positive)
    requires a * d < b * d
    ensures a < b
  {
    assert (b - a) * d > 0;
  }

  lemma NotNegative(x: int, d: Positive)
    requires x * d >= 0
    ensures x >= 0
  {
    assert (x + 1) * d > 0;
  }

  lemma CancelWeak(a: int, b: int, d: Positive)
    requires a * d <= b * d
    ensures a <= b
  {
    assert (b - a) * d >= 0;
    NotNegative(b - a, d);
  }

  lemma HalfUpIsUnique(p: int, q: int, n: int, d: Positive)
    requires IsHalfUp(p, n, d) && IsHalfUp(q, n, d)
    ensures p == q
  {
    Cancel(2 * p - 1, 2 * q + 1, d);
    Cancel(2 * q - 1, 2 * p + 1, d);
  }

  lemma CrossWeak(k: int, x: int, d: Positive, y: int, e: Positive)
    requires k * d <= x && x * e == y * d
    ensures k * e <= y
  {
    assert (k * d) * e <= x * e;
    assert (k * d) * e == (k * e) * d;
    CancelWeak(k * e, y, d);
  }

  lemma Cross(k: int, x: int, d: Positive, y: int, e: Positive)
    requires x < k * d && x * e == y * d
    ensures y < k * e
  {
    Smaller(x, k * d, e);
    assert (k * d) * e == (k * e) * d;
    Cancel(y, k * e, d);
  }

  lemma Smaller(x: int, y: int, d: Positive)
    requires x < y
    ensures x * d < y * d
  {
  }

  /** Rounding depends on the number and not on how it is written as a fraction. */
  lemma HalfUpOfNumber(q: int, a: Ratio, b: Ratio)
    requires SameNumber(a, b) && IsHalfUp(q, a.num, a.den)
    ensures IsHalfUp(q, b.num, b.den)
  {
    assert (2 * a.num) * b.den == 2 * (a.num * b.den) == (2 * b.num) * a.den;
    CrossWeak(2 * q - 1, 2 * a.num, a.den, 2 * b.num, b.den);
    Cross(2 * q + 1, 2 * a.num, a.den, 2 * b.num, b.den);
  }

  lemma HalfUpByRest(q: int, rest: int, d: Positive)
    ensures IsHalfUp(q, q * d + rest, d) <==> 0 <= 2 * rest + d < 2 * d
  {
    assert (2 * q - 1) * d == 2 * (q * d) - d;
    assert (2 * q + 1) * d == 2 * (q * d) + d;
  }

  /** The code compares twice a signed remainder with the denominator, so a negative number is truncated: it
      is rounded half up exactly when the part cut off is at most one half. */
  lemma RoundIsHalfUpIff(n: int, d: Positive)
    ensures IsHalfUp(Round(n, d), n, d) <==> n >= 0 || 2 * ((-n) % d) <= d
    ensures n < 0 ==> Round(n, d) == -((-n) / d)
  {
    var (quotient, rest) := QuoRem(n, d);
    if 2 * rest >= d {
      assert (quotient + 1) * d == quotient * d + d;
      HalfUpByRest(quotient + 1, rest - d, d);
    } else {
      HalfUpByRest(quotient, rest, d);
    }
  }

  // ----- the importer

  /** What the importer needs from `big.Rat.SetString`: a decimal `a.b` is the number whose digits are `ab`,
      divided by ten for every digit of `b`. How other texts are read is left open. */
  ghost predicate ReadsDecimals(read: string -> Option<Ratio>)
  {
    forall a, b :: AllDigits(a) && AllDigits(b) && a != "" ==>
      && read(DecimalText(a, b)).Some?
      && SameNumber(read(DecimalText(a, b)).value, Ratio(Value(a + b), Pow10(|b|)))
  }

  function DecimalText(a: string, b: string): string
  {
    if b == "" then a else a + "." + b
  }

  function NormalizeRate(read: string -> Option<Ratio>, value: string): string
  {
    var trimmed := Text.TrimSpace(value);
    if trimmed == "" then DEFAULT_RATE
    else
      match read(trimmed)
      case None => DEFAULT_RATE
      case Some(ratio) => if ratio.num <= 0 then DEFAULT_RATE else trimmed
  }

  /** A rate that can be read and is positive is used as it is, up to white space; instead of any other, the
      default of 8. */
  lemma RateUsed(read: string -> Option<Ratio>, rate: string)
    ensures var text := Text.TrimSpace(rate);
            NormalizeRate(read, rate) ==
            if text != "" && read(text).Some? && read(text).value.num > 0 then text else "8"
  {
  }

  function Times(a: Ratio, b: Ratio): Ratio
  {
    Ratio(a.num * b.num, a.den * b.den)
  }

  function Import(read: string -> Option<Ratio>, value: string, rate: string): int
  {
    var trimmed := Text.TrimSpace(value);
    if trimmed == "" then 0
    else
      match read(trimmed)
      case None => 0
      case Some(price) =>
        match read(NormalizeRate(read, rate))
        case None => 0
        case Some(ratio) =>
          var scaled := Times(Times(price, ratio), Ratio(SCALE, 1));
          var rounded := Round(scaled.num, scaled.den);
          if FitsInt64(rounded) then rounded else 0
  }

  /** The rate that is used can always be read and is positive, so the importer's third error return is
      never taken and a bad rate never changes the sign of a price. */
  lemma RateIsPositive(read: string -> Option<Ratio>, rate: string)
    requires ReadsDecimals(read)
    ensures read(NormalizeRate(read, rate)).Some? && read(NormalizeRate(read, rate)).value.num > 0
  {
    DefaultRateIsEight(read);
  }

  lemma DefaultRateIsEight(read: string -> Option<Ratio>)
    requires ReadsDecimals(read)
    ensures read(DEFAULT_RATE).Some? && read(DEFAULT_RATE).value.num > 0
    ensures SameNumber(read(DEFAULT_RATE).value, Ratio(8, 1))
  {
    assert DecimalText("8", "") == "8";
    assert "8" + "" == "8";
    assert Value("8") == 8 by { assert Text.Init("8") == "" && Text.Last("8") == '8'; }
    assert Pow10(0) == 1;
  }

  lemma ProductOfPositives(a: int, b: int)
    requires a >= 0 && b >= 0
    ensures a * b >= 0
  {
  }

  /** A price that is not negative is imported as price times rate in micro-cents per million tokens, rounded
      half up, or as 0 when that does not fit: for every way to write the two numbers as fractions. */
  lemma ImportIsHalfUp(read: string -> Option<Ratio>, value: string, rate: string, price: Ratio, ratio: Ratio, q: int)
    requires ReadsDecimals(read) && Text.TrimSpace(value) != "" && read(Text.TrimSpace(value)).Some?
    requires SameNumber(read(Text.TrimSpace(value)).value, price) && price.num >= 0
    requires read(NormalizeRate(read, rate)).Some? && SameNumber(read(NormalizeRate(read, rate)).value, ratio)
    requires IsHalfUp(q, price.num * ratio.num * SCALE, price.den * ratio.den)
    ensures Import(read, value, rate) == if FitsInt64(q) then q else 0
  {
    var p := read(Text.TrimSpace(value)).value;
    RateIsPositive(read, rate);
    var r := read(NormalizeRate(read, rate)).value;
    var scaled := Times(Times(p, r), Ratio(SCALE, 1));
    ProductOfPositives(price.num, p.den);
    NotNegative(p.num, price.den);
    ProductOfPositives(p.num, r.num);
    assert scaled.num >= 0;
    RoundIsHalfUpIff(scaled.num, scaled.den);
    var wanted := Times(Times(price, ratio), Ratio(SCALE, 1));
    SameProduct(p, price, r, ratio);
    SameProduct(Times(p, r), Times(price, ratio), Ratio(SCALE, 1), Ratio(SCALE, 1));
    HalfUpOfNumber(Round(scaled.num, scaled.den), scaled, wanted);
    assert wanted.num == price.num * ratio.num * SCALE && wanted.den == price.den * ratio.den;
    HalfUpIsUnique(q, Round(scaled.num, scaled.den), wanted.num, wanted.den);
  }

  /** The product that the importer rounds. */
  function Scaled(read: string -> Option<Ratio>, value: string, rate: string): Ratio
    requires read(Text.TrimSpace(value)).Some? && read(NormalizeRate(read, rate)).Some?
  {
    Times(Times(read(Text.TrimSpace(value)).value, read(NormalizeRate(read, rate)).value), Ratio(SCALE, 1))
  }

  /** Any price, negative ones included: what is imported is the product rounded half up exactly if the product
      is not negative or at most one half is cut off, as long as the result fits. */
  lemma ImportIsHalfUpIff(read: string -> Option<Ratio>, value: string, rate: string)
    requires Text.TrimSpace(value) != "" && read(Text.TrimSpace(value)).Some? && read(NormalizeRate(read, rate)).Some?
    requires var x := Scaled(read, value, rate); FitsInt64(Round(x.num, x.den))
    ensures var x := Scaled(read, value, rate);
            IsHalfUp(Import(read, value, rate), x.num, x.den) <==> x.num >= 0 || 2 * ((-x.num) % x.den) <= x.den
  {
    var x := Scaled(read, value, rate);
    RoundIsHalfUpIff(x.num, x.den);
  }

  lemma SameProduct(a: Ratio, b: Ratio, c: Ratio, d: Ratio)
    requires SameNumber(a, b) && SameNumber(c, d)
    ensures SameNumber(Times(a, c), Times(b, d))
  {
    assert (a.num * c.num) * (b.den * d.den) == (a.num * b.den) * (c.num * d.den);
    assert (b.num * d.num) * (a.den * c.den) == (b.num * a.den) * (d.num * c.den);
  }

  // ----- decimal digits

  predicate AllDigits(s: string)
  {
    forall i :: 0 <= i < |s| ==> '0' <= s[i] <= '9'
  }

  function Digit(c: char): nat
    requires '0' <= c <= '9'
  {
    c as nat - '0' as nat
  }

  function DigitChar(d: nat): (c: char)
    requires d < 10
    ensures '0' <= c <= '9' && Digit(c) == d
  {
    (d + '0' as nat) as char
  }

  function Value(s: string): nat
    requires AllDigits(s)
  {
    if s == "" then 0 else 10 * Value(Text.Init(s)) + Digit(Text.Last(s))
  }

  function Pow10(n: nat): Positive
  {
    if n == 0 then 1 else 10 * Pow10(n - 1)
  }

  lemma {:induction false} Pow10Add(a: nat, b: nat)
    ensures Pow10(a + b) == Pow10(a) * Pow10(b)
  {
    if a > 0 {
      Pow10Add(a - 1, b);
      assert 10 * (Pow10(a - 1) * Pow10(b)) == (10 * Pow10(a - 1)) * Pow10(b);
    }
  }

  lemma TenTimes(x: int, p: int)
    ensures 10 * (x * p) == x * (10 * p)
  {
  }

  lemma ValueSnoc(s: string, c: char)
    requires AllDigits(s) && '0' <= c <= '9'
    ensures AllDigits(s + [c]) && Value(s + [c]) == 10 * Value(s) + Digit(c)
  {
    assert Text.Init(s + [c]) == s && Text.Last(s + [c]) == c;
  }

  lemma {:induction false} ValueAppend(a: string, b: string)
    requires AllDigits(a) && AllDigits(b)
    ensures AllDigits(a + b) && Value(a + b) == Value(a) * Pow10(|b|) + Value(b)
  {
    if b == "" {
      assert a + b == a;
    } else {
      var front, c := Text.Init(b), Text.Last(b);
      ValueAppend(a, front);
      ValueSnoc(a + front, c);
      assert a + b == (a + front) + [c];
      TenTimes(Value(a), Pow10(|front|));
    }
  }

  /** Decimal digits without leading zeros. */
  function Decimal(n: nat): (s: string)
    ensures s != "" && AllDigits(s) && Value(s) == n
  {
    if n < 10 then
      var s := [DigitChar(n)];
      assert Text.Init(s) == "" && Text.Last(s) == DigitChar(n);
      s
    else
      var s := Decimal(n / 10) + [DigitChar(n % 10)];
      assert Text.Init(s) == Decimal(n / 10) && Text.Last(s) == DigitChar(n % 10);
      s
  }

  /** Exactly `width` decimal digits. */
  function Fixed(n: nat, width: nat): (s: string)
    requires n < Pow10(width)
    ensures |s| == width && AllDigits(s) && Value(s) == n
  {
    if width == 0 then ""
    else
      var s := Fixed(n / 10, width - 1) + [DigitChar(n % 10)];
      assert Text.Init(s) == Fixed(n / 10, width - 1) && Text.Last(s) == DigitChar(n % 10);
      s
  }

  // ----- the printer

  /** `big.Rat.FloatString` of a number that is not negative. */
  function FloatString(x: Ratio, precision: nat): string
    requires x.num >= 0
  {
    var p := Pow10(precision);
    var quotient, remainder := x.num / x.den, (x.num % x.den) * p;
    var fraction, rest := remainder / x.den, remainder % x.den;
    FractionFits(x.num % x.den, p, x.den);
    var fraction := if 2 * rest >= x.den then fraction + 1 else fraction;
    var (whole, fraction) := if fraction >= p then (quotient + 1, fraction - p) else (quotient, fraction);
    Decimal(whole) + "." + Fixed(fraction, precision)
  }

  lemma FractionFits(r: nat, p: Positive, d: Positive)
    requires r < d
    ensures 0 <= (r * p) / d < p
  {
    var q := (r * p) / d;
    assert q * d <= r * p < d * p;
    Cancel(q, p, d);
  }

  function TrimRightOf(s: string, c: char): string
  {
    if s != "" && s[|s| - 1] == c then TrimRightOf(s[..|s| - 1], c) else s
  }

  /** `microCentsPerMillionToPriceString`; the ratio is any fraction equal to the price. */
  function PriceString(value: int, ratio: Ratio): string
    requires value > 0 ==> SameNumber(ratio, Ratio(value, SCALE))
  {
    if value <= 0 then ""
    else
      NumeratorIsPositive(value, ratio);
      var formatted := TrimRightOf(TrimRightOf(FloatString(ratio, 15), '0'), '.');
      if formatted == "" then "0" else formatted
  }

  lemma NumeratorIsPositive(value: int, ratio: Ratio)
    requires value > 0 && SameNumber(ratio, Ratio(value, SCALE))
    ensures ratio.num > 0
  {
    assert value * ratio.den > 0;
  }

  /** The same number has the same whole part, and remainders in proportion. */
  lemma DivideSameNumber(a: Ratio, b: Ratio)
    requires SameNumber(a, b)
    ensures a.num / a.den == b.num / b.den
    ensures (a.num % a.den) * b.den == (b.num % b.den) * a.den
  {
    var q, s := b.num / b.den, b.num % b.den;
    var rest := a.num - q * a.den;
    assert b.num * a.den == (q * b.den + s) * a.den == (q * a.den) * b.den + s * a.den;
    assert rest * b.den == s * a.den;
    Smaller(s, b.den, a.den);
    ProductOfPositives(s, a.den);
    NotNegative(rest, b.den);
    Cancel(rest, a.den, b.den);
    QuotientIs(a.num, a.den, q, rest);
  }

  /** Fourteen of the fifteen places are enough, so nothing is rounded. */
  lemma PriceIsPrintedExactly(value: nat, ratio: Ratio)
    requires value > 0 && SameNumber(ratio, Ratio(value, SCALE)) && ratio.num > 0
    ensures 10 * (value % SCALE) < Pow10(15)
    ensures FloatString(ratio, 15) == Decimal(value / SCALE) + "." + Fixed(10 * (value % SCALE), 15)
  {
    DivideSameNumber(ratio, Ratio(value, SCALE));
    PlacesAreEnough();
    var rest, s := ratio.num % ratio.den, value % SCALE;
    assert rest * Pow10(15) == (10 * s) * ratio.den + 0;
    QuotientIs(rest * Pow10(15), ratio.den, 10 * s, 0);
  }

  lemma PlacesAreEnough()
    ensures Pow10(15) == 10 * SCALE
  {
    assert Pow10(5) == 100000;
    assert Pow10(10) == 10000000000 by { Pow10Add(5, 5); }
    Pow10Add(10, 5);
  }

  lemma QuotientIs(n: int, d: Positive, q: int, r: int)
    requires n == q * d + r && 0 <= r < d
    ensures n / d == q && n % d == r
  {
    var a, b := n / d, n % d;
    assert (a - q) * d == r - b;
    assert -1 * d < (a - q) * d < 1 * d;
    Cancel(-1, a - q, d);
    Cancel(a - q, 1, d);
  }

  lemma {:induction false} TrimZeros(a: string, f: string)
    requires AllDigits(f)
    ensures var t := TrimRightOf(f, '0');
            && TrimRightOf(a + "." + f, '0') == a + "." + t
            && |t| <= |f| && AllDigits(t) && Value(f) == Value(t) * Pow10(|f| - |t|)
            && (t != "" ==> t[|t| - 1] != '.')
  {
    var s := a + "." + f;
    if f == "" {
      assert s[|s| - 1] == '.';
    } else {
      assert s[|s| - 1] == f[|f| - 1];
      if f[|f| - 1] == '0' {
        var front := f[..|f| - 1];
        TrimZeros(a, front);
        assert s[..|s| - 1] == a + "." + front;
        var t := TrimRightOf(front, '0');
        assert Value(f) == 10 * Value(front);
        TenTimes(Value(t), Pow10(|front| - |t|));
      }
    }
  }

  lemma TrimDot(a: string, t: string)
    requires a != "" && AllDigits(a) && AllDigits(t)
    ensures TrimRightOf(a + "." + t, '.') == DecimalText(a, t)
  {
    var s := a + "." + t;
    if t == "" {
      assert s[..|s| - 1] == a;
    } else {
      assert s[|s| - 1] == t[|t| - 1];
    }
  }

  /** A printed price is a plain decimal equal to the price. */
  lemma PriceStringIsDecimal(value: int, ratio: Ratio) returns (a: string, t: string)
    requires value > 0 && SameNumber(ratio, Ratio(value, SCALE))
    ensures a != "" && AllDigits(a) && AllDigits(t) && AllDigits(a + t)
    ensures PriceString(value, ratio) == DecimalText(a, t)
    ensures SameNumber(Ratio(Value(a + t), Pow10(|t|)), Ratio(value, SCALE))
  {
    NumeratorIsPositive(value, ratio);
    PriceIsPrintedExactly(value, ratio);
    a := Decimal(value / SCALE);
    var f := Fixed(10 * (value % SCALE), 15);
    t := TrimRightOf(f, '0');
    TrimZeros(a, f);
    TrimDot(a, t);
    ValueAppend(a, t);
    DigitsAreTheNumber(value, a, f, t);
  }

  lemma DigitsAreTheNumber(value: nat, a: string, f: string, t: string)
    requires AllDigits(a) && AllDigits(f) && AllDigits(t) && AllDigits(a + t) && |f| == 15 && |t| <= 15
    requires Value(a) == value / SCALE && Value(f) == 10 * (value % SCALE)
    requires Value(f) == Value(t) * Pow10(15 - |t|)
    requires Value(a + t) == Value(a) * Pow10(|t|) + Value(t)
    ensures Value(a + t) * SCALE == value * Pow10(|t|)
  {
    Pow10Add(|t|, 15 - |t|);
    PlacesAreEnough();
    Rescale(value, Value(a), Value(t), Pow10(|t|), Pow10(15 - |t|), SCALE);
  }

  lemma Rescale(value: int, whole: int, digits: int, pow: int, pad: int, scale: int)
    requires pow * pad == 10 * scale && digits * pad == 10 * (value - whole * scale)
    ensures (whole * pow + digits) * scale == value * pow
  {
    var rest := value - whole * scale;
    assert 10 * (digits * scale) == digits * (pow * pad) == (digits * pad) * pow == 10 * (rest * pow) by {
      assert digits * (10 * scale) == 10 * (digits * scale);
      assert digits * (pow * pad) == (digits * pad) * pow;
      assert (10 * rest) * pow == 10 * (rest * pow);
    }
    assert (whole * pow) * scale == (whole * scale) * pow;
  }

  // ----- there and back

  /** Importing a printed price at any rate gives that price times the rate, rounded half up. */
  lemma ImportOfPrinted(read: string -> Option<Ratio>, value: int, ratio: Ratio, rate: string, q: int)
    requires ReadsDecimals(read) && value > 0 && SameNumber(ratio, Ratio(value, SCALE))
    requires var r := read(NormalizeRate(read, rate)); r.Some? && IsHalfUp(q, value * r.value.num, r.value.den)
    ensures Import(read, PriceString(value, ratio), rate) == if FitsInt64(q) then q else 0
  {
    var text := PrintedIsRead(read, value, ratio);
    var r := read(NormalizeRate(read, rate)).value;
    Unscale(value, r, q);
    ImportIsHalfUp(read, text, rate, Ratio(value, SCALE), r, q);
  }

  lemma PrintedIsRead(read: string -> Option<Ratio>, value: int, ratio: Ratio) returns (text: string)
    requires ReadsDecimals(read) && value > 0 && SameNumber(ratio, Ratio(value, SCALE))
    ensures PriceString(value, ratio) == text && Text.TrimSpace(text) == text != ""
    ensures read(text).Some? && SameNumber(read(text).value, Ratio(value, SCALE))
  {
    var a, t := PriceStringIsDecimal(value, ratio);
    text := DecimalText(a, t);
    DecimalTextIsTrimmed(a, t);
    SameNumberIsTransitive(read(text).value, Ratio(Value(a + t), Pow10(|t|)), Ratio(value, SCALE));
  }

  lemma Unscale(value: int, r: Ratio, q: int)
    requires IsHalfUp(q, value * r.num, r.den)
    ensures IsHalfUp(q, value * r.num * SCALE, SCALE * r.den)
  {
    var n, d := value * r.num * SCALE, SCALE * r.den;
    assert (value * r.num) * d == n * r.den;
    HalfUpOfNumber(q, Ratio(value * r.num, r.den), Ratio(n, d));
  }

  lemma SameNumberIsTransitive(a: Ratio, b: Ratio, c: Ratio)
    requires SameNumber(a, b) && SameNumber(b, c)
    ensures SameNumber(a, c)
  {
    assert (a.num * b.den) * c.den == (b.num * a.den) * c.den;
    assert (b.num * c.den) * a.den == (c.num * b.den) * a.den;
    assert (a.num * c.den) * b.den == (c.num * a.den) * b.den;
    CancelWeak(a.num * c.den, c.num * a.den, b.den);
    CancelWeak(c.num * a.den, a.num * c.den, b.den);
  }

  lemma DecimalTextIsTrimmed(a: string, t: string)
    requires a != "" && AllDigits(a) && AllDigits(t)
    ensures Text.TrimSpace(DecimalText(a, t)) == DecimalText(a, t) != ""
  {
    var s := DecimalText(a, t);
    assert s[0] == a[0];
    assert t != "" ==> s[|s| - 1] == t[|t| - 1];
    Text.TrimmedIsFixed(s);
  }

  /** Printing and then importing at rate 1 gives a price back exactly when it is not negative. */
  lemma PrintThenImport(read: string -> Option<Ratio>, value: int, ratio: Ratio)
    requires ReadsDecimals(read) && FitsInt64(value) && SameNumber(ratio, Ratio(value, SCALE))
    ensures Import(read, PriceString(value, ratio), "1") == value <==> value >= 0
  {
    if value > 0 {
      RateOne(read);
      var r := read("1").value;
      HalfUpOfNumber(value, Ratio(value, 1), Ratio(value * r.num, r.den));
      ImportOfPrinted(read, value, ratio, "1", value);
    }
  }

  lemma RateOne(read: string -> Option<Ratio>)
    requires ReadsDecimals(read)
    ensures NormalizeRate(read, "1") == "1" && read("1").Some? && read("1").value.num == read("1").value.den
  {
    assert DecimalText("1", "") == "1";
    assert "1" + "" == "1";
    assert Value("1") == 1 by { assert Text.Init("1") == "" && Text.Last("1") == '1'; }
    assert Pow10(0) == 1;
    DecimalTextIsTrimmed("1", "");
  }

  /** Two prices that print alike are alike. */
  lemma PriceStringIsInjective(read: string -> Option<Ratio>, v: nat, w: nat, a: Ratio, b: Ratio)
    requires ReadsDecimals(read) && FitsInt64(v) && FitsInt64(w)
    requires SameNumber(a, Ratio(v, SCALE)) && SameNumber(b, Ratio(w, SCALE))
    requires PriceString(v, a) == PriceString(w, b)
    ensures v == w
  {
    PrintThenImport(read, v, a);
    PrintThenImport(read, w, b);
  }

  // ----- a reader

  function ReadDecimal(s: string): Option<Ratio>
  {
    var dot := Text.IndexOf(s, '.');
    var a, b := s[..dot], if dot < |s| then s[dot + 1..] else "";
    if a != "" && AllDigits(a) && AllDigits(b) then Some(Ratio(Value(a + b), Pow10(|b|))) else None
  }

  /** The demand on the reader can be met. */
  lemma ReadDecimalReadsDecimals()
    ensures ReadsDecimals(s => ReadDecimal(s))
  {
    forall a, b | AllDigits(a) && AllDigits(b) && a != ""
      ensures ReadDecimal(DecimalText(a, b)) == Some(Ratio(Value(a + b), Pow10(|b|)))
    {
      var s := DecimalText(a, b);
      if b == "" {
        assert a + b == a;
        Text.IndexOfAfter(a, '.', "");
        assert s + "" == s;
      } else {
        Text.IndexOfAfter(a, '.', "." + b);
        assert s == a + ("." + b) && s[..|a|] == a && s[|a| + 1..] == b;
      }
    }
  }
}
