/**
 The exact numeric converters of a bulk load: integers, decimal and money.
 */
module NumberConverters {
  import opened Wrappers
  import opened Decimals

  newtype int64 = x: int | -0x8000_0000_0000_0000 <= x < 0x8000_0000_0000_0000
  newtype uint64 = x: int | 0 <= x < 0x1_0000_0000_0000_0000

  const MAX_INT64: int := 0x7FFF_FFFF_FFFF_FFFF
  const MIN_INT64: int := -0x8000_0000_0000_0000

  datatype Reason =
    | NotAnInteger | NotWhole | OutOfRange | NotADecimal | TooManyPlaces | DoesNotFit
    | NotFinite | NotABit | NotUtf8 | TooLong | NotInCodePage

  // ---- decimal, numeric ----

  /** decimalConv on text. */
  function DecimalConv(precision: nat, scale: nat, s: string): Result<string, Reason>
    requires scale <= precision
  {
    match SplitDecimal(s)
    case None => Err(NotADecimal)
    case Some(p) =>
      var whole := TrimZeros(p.whole);
      if |p.frac| > scale then Err(TooManyPlaces)
      else if |whole| > precision - scale then Err(DoesNotFit)
      else Ok(DecimalText(p.neg, whole, p.frac))
  }

  function Abs(x: int): nat {
    if x < 0 then -x else x
  }

  /** At most `scale` places, and a magnitude below 10^(precision-scale). */
  predicate FitsDecimal(n: Number, precision: nat, scale: nat)
    requires scale <= precision
  {
    n.places <= scale && Abs(n.units) < Pow10(precision - scale + n.places)
  }

  lemma PartsFit(p: Parts, precision: nat, scale: nat)
    requires AllDigits(p.whole) && AllDigits(p.frac) && scale <= precision
    ensures |p.frac| <= scale && |TrimZeros(p.whole)| <= precision - scale <==>
            FitsDecimal(NumberOf(p), precision, scale)
  {
    TrimmedLengthIsSize(p.whole + p.frac, precision - scale + |p.frac|);
    TrimmedAppend(p.whole, p.frac);
  }

  /** decimal(p,s) takes exactly the decimals with at most s places and a
      magnitude below 10^(p-s), and sends text for the same number. */
  lemma DecimalAccepts(precision: nat, scale: nat, s: string)
    requires scale <= precision
    ensures DecimalConv(precision, scale, s).Ok? <==>
              Denotes(s).Some? && FitsDecimal(Denotes(s).value, precision, scale)
    ensures DecimalConv(precision, scale, s).Ok? ==>
              Denotes(DecimalConv(precision, scale, s).value) == Denotes(s)
  {
    if SplitDecimal(s).Some? {
      PartsFit(SplitDecimal(s).value, precision, scale);
      TextDenotesSame(SplitDecimal(s).value);
    }
  }

  /** What decimal sends, it takes again unchanged. */
  lemma DecimalIsIdempotent(precision: nat, scale: nat, s: string)
    requires scale <= precision && DecimalConv(precision, scale, s).Ok?
    ensures DecimalConv(precision, scale, DecimalConv(precision, scale, s).value) == DecimalConv(precision, scale, s)
  {
    var p := SplitDecimal(s).value;
    TextIsCanonical(p.neg, p.whole, p.frac);
  }

  // ---- money, smallmoney ----

  function Zeros(n: nat): (r: string)
    ensures |r| == n && AllDigits(r)
    ensures forall i :: 0 <= i < n ==> r[i] == '0'
  {
    seq(n, i => '0')
  }

  /** moneyConv on text: a count of ten-thousandths in [lo, hi]. */
  function MoneyConv(lo: int, hi: int, s: string): Result<string, Reason> {
    match SplitDecimal(s) case None => Err(NotADecimal) case Some(p) => MoneyOfParts(lo, hi, p)
  }

  function MoneyOfParts(lo: int, hi: int, p: Parts): Result<string, Reason>
    requires AllDigits(p.whole) && AllDigits(p.frac)
  {
    if |p.frac| > 4 then Err(TooManyPlaces)
    else if DigitsValue(p.whole + p.frac + Zeros(4 - |p.frac|)) > (if p.neg then -lo else hi) then Err(OutOfRange)
    else Ok(DecimalText(p.neg, TrimZeros(p.whole), p.frac))
  }

  /** The amount in ten-thousandths. */
  function TenThousandths(n: Number): int
    requires n.places <= 4
  {
    n.units * Pow10(4 - n.places)
  }

  lemma {:induction false} ZerosAreZero(n: nat)
    ensures DigitsValue(Zeros(n)) == 0
  {
    if n > 0 {
      assert Zeros(n)[..n - 1] == Zeros(n - 1);
      ZerosAreZero(n - 1);
    }
  }

  lemma UnitsAreTenThousandths(p: Parts)
    requires AllDigits(p.whole) && AllDigits(p.frac) && |p.frac| <= 4
    ensures DigitsValue(p.whole + p.frac + Zeros(4 - |p.frac|)) ==
            DigitsValue(p.whole + p.frac) * Pow10(4 - |p.frac|)
  {
    DigitsAppend(p.whole + p.frac, Zeros(4 - |p.frac|));
    ZerosAreZero(4 - |p.frac|);
  }

  /** At most 4 places, and an amount in [lo, hi]. */
  predicate FitsMoney(n: Number, lo: int, hi: int) {
    n.places <= 4 && lo <= TenThousandths(n) <= hi
  }

  lemma MoneyFits(p: Parts, lo: int, hi: int)
    requires AllDigits(p.whole) && AllDigits(p.frac) && |p.frac| <= 4 && lo < 0 <= hi
    ensures DigitsValue(p.whole + p.frac + Zeros(4 - |p.frac|)) <= (if p.neg then -lo else hi) <==>
            FitsMoney(NumberOf(p), lo, hi)
  {
    UnitsAreTenThousandths(p);
    SignedProduct(DigitsValue(p.whole + p.frac), Pow10(4 - |p.frac|));
  }

  lemma MoneyTakesParts(lo: int, hi: int, p: Parts)
    requires AllDigits(p.whole) && AllDigits(p.frac) && lo < 0 <= hi
    ensures MoneyOfParts(lo, hi, p).Ok? <==> FitsMoney(NumberOf(p), lo, hi)
    ensures MoneyOfParts(lo, hi, p).Ok? ==> Denotes(MoneyOfParts(lo, hi, p).value) == Some(NumberOf(p))
  {
    if |p.frac| <= 4 { MoneyFits(p, lo, hi); }
    TextDenotesSame(p);
  }

  /** money takes exactly the decimals with at most 4 places whose amount in
      ten-thousandths lies in [lo, hi], and sends text for the same amount. */
  lemma MoneyAccepts(lo: int, hi: int, s: string)
    requires lo < 0 <= hi
    ensures MoneyConv(lo, hi, s).Ok? <==> Denotes(s).Some? && FitsMoney(Denotes(s).value, lo, hi)
    ensures MoneyConv(lo, hi, s).Ok? ==> Denotes(MoneyConv(lo, hi, s).value) == Denotes(s)
  {
    if SplitDecimal(s).Some? { MoneyTakesParts(lo, hi, SplitDecimal(s).value); }
  }

  lemma SignedProduct(v: int, k: int)
    requires v >= 0 && k >= 0
    ensures (-v) * k == -(v * k) && v * k >= 0
  {
  }

  lemma MoneyIsIdempotent(lo: int, hi: int, s: string)
    requires lo < 0 <= hi && MoneyConv(lo, hi, s).Ok?
    ensures MoneyConv(lo, hi, MoneyConv(lo, hi, s).value) == MoneyConv(lo, hi, s)
  {
    var text := MoneyConv(lo, hi, s).value;
    var p := SplitDecimal(s).value;
    MoneyAccepts(lo, hi, s);
    MoneyAccepts(lo, hi, text);
    TextIsCanonical(p.neg, p.whole, p.frac);
  }

  lemma Pow10At19()
    ensures Pow10(19) == 10_000_000_000_000_000_000
  {
    assert Pow10(4) == 10_000;
    Pow10Adds(4, 4);
    Pow10Adds(8, 8);
    assert Pow10(3) == 1000;
    Pow10Adds(16, 3);
  }

  lemma RoomForDigit(digits: string, i: nat)
    requires AllDigits(digits) && i < |digits| <= 19
    ensures DigitsValue(digits[..i + 1]) == 10 * DigitsValue(digits[..i]) + DigitOf(digits[i])
    ensures DigitsValue(digits[..i + 1]) < 10_000_000_000_000_000_000
  {
    assert digits[..i + 1][..i] == digits[..i];
    DigitsBound(digits[..i + 1]);
    PowGrows(i + 1, 19);
    Pow10At19();
  }

  /** The amount, accumulated in a uint64 that never overflows. */
  method Accumulate(digits: string) returns (units: uint64, inRange: bool)
    requires AllDigits(digits)
    ensures inRange == (|digits| <= 19)
    ensures inRange ==> units as int == DigitsValue(digits)
  {
    units := 0;
    inRange := |digits| <= 19;
    var i := 0;
    while inRange && i < |digits|
      invariant i <= |digits| && inRange == (|digits| <= 19)
      invariant inRange ==> units as int == DigitsValue(digits[..i])
    {
      RoomForDigit(digits, i);
      var d := DigitOf(digits[i]) as uint64;
      inRange := units <= (0xFFFF_FFFF_FFFF_FFFF - d) / 10;
      units := units * 10 + d;
      i := i + 1;
    }
    assert digits[..|digits|] == digits;
  }

  /** More than 19 digits are more than any int64. */
  lemma LongIsLarge(digits: string)
    requires AllDigits(digits) && |digits| > 19 && digits[0] != '0'
    ensures DigitsValue(digits) > 0x8000_0000_0000_0000
  {
    LeadingDigitCounts(digits);
    PowGrows(19, |digits| - 1);
    Pow10At19();
  }

  /** The converter as it computes, in 64-bit words: every step is in range for
      every text and every bound, the smallest int64 included. */
  method ConvertMoney(lo: int64, hi: int64, s: string) returns (r: Result<string, Reason>)
    requires lo < 0 <= hi
    ensures r == MoneyConv(lo as int, hi as int, s)
  {
    var split := SplitDecimal(s);
    if split.None? { return Err(NotADecimal); }
    var p := split.value;
    if |p.frac| > 4 { return Err(TooManyPlaces); }
    var all := p.whole + p.frac + Zeros(4 - |p.frac|);
    TrimKeepsValue(all);
    var digits := TrimZeros(all);
    var units, inRange := Accumulate(digits);
    if !inRange { LongIsLarge(digits); }
    var limit := hi as uint64;
    if p.neg { limit := (-(lo + 1)) as uint64 + 1; }
    if !inRange || units > limit { return Err(OutOfRange); }
    return Ok(DecimalText(p.neg, TrimZeros(p.whole), p.frac));
  }

  // ---- integers ----

  /** A float64, by the real it holds. */
  datatype Float = Finite(r: real) | Infinite | NaN

  /** strconv.ParseInt without its 64-bit limit: a sign and digits. */
  function ParseInteger(s: string): Option<int> {
    var t := Unsigned(s);
    if t == "" || !AllDigits(t) then None
    else Some(WithSign(Signed(s) && s[0] == '-', DigitsValue(t)))
  }

  function IntOfInt(lo: int, hi: int, n: int): Result<int, Reason> {
    if n < lo || n > hi then Err(OutOfRange) else Ok(n)
  }

  /** Text past int64 is out of range like text past the column. */
  function IntOfText(lo: int, hi: int, s: string): Result<int, Reason> {
    match ParseInteger(s)
    case None => Err(NotAnInteger)
    case Some(n) => if n < MIN_INT64 || n > MAX_INT64 || n < lo || n > hi then Err(OutOfRange) else Ok(n)
  }

  /** The ranges of tinyint, smallint, int and bigint. */
  predicate IntegerType(lo: int, hi: int) {
    || (lo == 0 && hi == 255)
    || (lo == -0x8000 && hi == 0x7FFF)
    || (lo == -0x8000_0000 && hi == 0x7FFF_FFFF)
    || (lo == MIN_INT64 && hi == MAX_INT64)
  }

  /** float64(n) for a bound of an integer type: exact but for the largest
      int64, which rounds up to the next power of two. */
  function FloatBound(n: int): real {
    if n == MAX_INT64 then 0x8000_0000_0000_0000 as real else n as real
  }

  predicate IsWhole(r: real) {
    r.Floor as real == r
  }

  function IntOfFloat(lo: int, hi: int, f: Float): Result<int, Reason> {
    if !f.Finite? || !IsWhole(f.r) then Err(NotWhole)
    else if f.r < FloatBound(lo) || f.r > FloatBound(hi) || (f.r == FloatBound(hi) && hi == MAX_INT64)
    then Err(OutOfRange)
    else Ok(f.r.Floor)
  }

  predicate Holds(f: Float, n: int) {
    f == Finite(n as real)
  }

  /** An integer column takes a float exactly when it is a whole number in range,
      the 64-bit bounds included, and sends that number. */
  lemma IntTakesWholeFloats(lo: int, hi: int, f: Float)
    requires IntegerType(lo, hi)
    ensures IntOfFloat(lo, hi, f).Ok? <==> exists n :: lo <= n <= hi && Holds(f, n)
    ensures IntOfFloat(lo, hi, f).Ok? ==> Holds(f, IntOfFloat(lo, hi, f).value)
  {
    if IntOfFloat(lo, hi, f).Ok? {
      assert lo <= f.r.Floor <= hi && Holds(f, f.r.Floor);
    }
    forall n | lo <= n <= hi && Holds(f, n) ensures IntOfFloat(lo, hi, f).Ok? {
      assert f.r.Floor == n;
    }
  }

  /** ... and text exactly when it is a sign and digits for a number in range. */
  lemma IntTakesIntegerText(lo: int, hi: int, s: string)
    requires MIN_INT64 <= lo <= 0 <= hi <= MAX_INT64
    ensures IntOfText(lo, hi, s).Ok? <==>
              exists sign, digits :: IsDecimal(s, sign, digits, "", "")
                && lo <= WithSign(sign == "-", DigitsValue(digits)) <= hi
    ensures IntOfText(lo, hi, s).Ok? ==> Denotes(s) == Some(Number(IntOfText(lo, hi, s).value, 0))
  {
    if ParseInteger(s).Some? { IntegerIsDecimal(s); }
    forall sign, digits | IsDecimal(s, sign, digits, "", "")
      ensures ParseInteger(s) == Some(WithSign(sign == "-", DigitsValue(digits)))
    {
      assert digits + "" + "" == digits;
      UnsignedTakesSign(sign, digits);
    }
  }

  lemma IntegerIsDecimal(s: string)
    requires ParseInteger(s).Some?
    ensures Denotes(s) == Some(Number(ParseInteger(s).value, 0))
    ensures exists sign, digits :: IsDecimal(s, sign, digits, "", "")
              && ParseInteger(s).value == WithSign(sign == "-", DigitsValue(digits))
  {
    var t := Unsigned(s);
    var sign := SignJoins(s);
    assert t + "" + "" == t;
    assert IsDecimal(s, sign, t, "", "");
    SplitTakesDecimals(s, sign, t, "", "");
  }
}
