/**
 Decimal text: its digits, the number it denotes, and the printer and splitter
 the bulk converters are built from.
 */
module Decimals {
  import opened Wrappers

  predicate IsDigit(c: char) { '0' <= c <= '9' }

  predicate AllDigits(s: string) {
    forall i :: 0 <= i < |s| ==> IsDigit(s[i])
  }

  function DigitOf(c: char): int
    requires IsDigit(c)
  {
    c as int - '0' as int
  }

  function Pow10(n: nat): (r: nat)
    ensures r >= 1
  {
    if n == 0 then 1 else 10 * Pow10(n - 1)
  }

  /** The number a run of digits denotes. */
  function DigitsValue(s: string): nat
    requires AllDigits(s)
  {
    if s == [] then 0 else 10 * DigitsValue(s[..|s| - 1]) + DigitOf(s[|s| - 1])
  }

  lemma {:induction false} Pow10Adds(a: nat, b: nat)
    ensures Pow10(a + b) == Pow10(a) * Pow10(b)
  {
    if a > 0 {
      Pow10Adds(a - 1, b);
      assert Pow10(a + b) == 10 * Pow10(a - 1 + b);
    }
  }

  lemma {:induction false} DigitsAppend(a: string, b: string)
    requires AllDigits(a) && AllDigits(b)
    ensures AllDigits(a + b)
    ensures DigitsValue(a + b) == DigitsValue(a) * Pow10(|b|) + DigitsValue(b)
  {
    if b == [] {
      assert a + b == a;
    } else {
      var init, last := b[..|b| - 1], b[|b| - 1];
      DigitsAppend(a, init);
      assert (a + b)[..|a + b| - 1] == a + init;
      assert (a + b)[|a + b| - 1] == last;
      Distribute(DigitsValue(a), Pow10(|init|));
    }
  }

  lemma Distribute(x: nat, p: nat)
    ensures 10 * (x * p) == x * (10 * p)
  {
  }

  lemma {:induction false} DigitsBound(s: string)
    requires AllDigits(s)
    ensures DigitsValue(s) < Pow10(|s|)
  {
    if s != [] { DigitsBound(s[..|s| - 1]); }
  }

  /** strings.TrimLeft(s, "0"). */
  function TrimZeros(s: string): (r: string)
    ensures |r| <= |s| && (r == [] || r[0] != '0')
    ensures AllDigits(s) ==> AllDigits(r)
  {
    if s != [] && s[0] == '0' then TrimZeros(s[1..]) else s
  }

  lemma {:induction false} TrimKeepsValue(s: string)
    requires AllDigits(s)
    ensures DigitsValue(TrimZeros(s)) == DigitsValue(s)
  {
    if s != [] && s[0] == '0' {
      TrimKeepsValue(s[1..]);
      DigitsAppend(s[..1], s[1..]);
      assert s == s[..1] + s[1..];
      assert DigitsValue(s[..1]) == 0 by { assert s[..1][..0] == []; }
    }
  }

  /** A number without a leading zero is at least the smallest of its length. */
  lemma {:induction false} LeadingDigitCounts(s: string)
    requires AllDigits(s) && s != [] && s[0] != '0'
    ensures Pow10(|s| - 1) <= DigitsValue(s)
  {
    if |s| > 1 {
      LeadingDigitCounts(s[..|s| - 1]);
    } else {
      assert s[..0] == [];
    }
  }

  /** How many digits are left says how big the number is. */
  lemma TrimmedLengthIsSize(s: string, k: nat)
    requires AllDigits(s)
    ensures |TrimZeros(s)| <= k <==> DigitsValue(s) < Pow10(k)
  {
    var t := TrimZeros(s);
    TrimKeepsValue(s);
    DigitsBound(t);
    if |t| <= k {
      PowGrows(|t|, k);
    } else {
      LeadingDigitCounts(t);
      PowGrows(k, |t| - 1);
    }
  }

  lemma {:induction false} PowGrows(a: nat, b: nat)
    requires a <= b
    ensures Pow10(a) <= Pow10(b)
  {
    if a < b { PowGrows(a, b - 1); }
  }

  // ---- decimal text ----

  /** Text taken apart: the sign, and the digits on each side of the point. */
  datatype Parts = Parts(neg: bool, whole: string, frac: string)

  /** Index of the first point, or the length. */
  function PointAt(s: string): (i: nat)
    ensures i <= |s| && (i < |s| ==> s[i] == '.')
  {
    if s == [] || s[0] == '.' then 0 else 1 + PointAt(s[1..])
  }

  predicate Signed(s: string) {
    s != [] && (s[0] == '-' || s[0] == '+')
  }

  /** The text after an optional sign. */
  function Unsigned(s: string): string {
    if Signed(s) then s[1..] else s
  }

  /** strings.Cut(t, "."). */
  function Cut(t: string): (string, string) {
    var at := PointAt(t);
    (t[..at], if at < |t| then t[at + 1..] else [])
  }

  /** An optional sign, then digits, then optionally a point and digits; some
      digit somewhere. */
  function SplitDecimal(s: string): Option<Parts> {
    var (whole, frac) := Cut(Unsigned(s));
    if whole + frac != [] && AllDigits(whole) && AllDigits(frac)
    then Some(Parts(Signed(s) && s[0] == '-', whole, frac))
    else None
  }

  method DigitsOnly(s: string) returns (ok: bool)
    ensures ok == AllDigits(s)
  {
    for i := 0 to |s|
      invariant AllDigits(s[..i])
    {
      if s[i] < '0' || s[i] > '9' { return false; }
      assert s[..i + 1] == s[..i] + [s[i]];
    }
    assert s[..|s|] == s;
    return true;
  }

  function DecimalText(neg: bool, whole: string, frac: string): string {
    var w := (if neg then "-" else "") + if whole == "" then "0" else whole;
    if frac == "" then w else w + "." + frac
  }

  /** The grammar: text is a decimal with these parts. */
  ghost predicate IsDecimal(s: string, sign: string, whole: string, point: string, frac: string) {
    && s == sign + (whole + point + frac)
    && (sign == "" || sign == "-" || sign == "+")
    && (point == "." || (point == "" && frac == ""))
    && AllDigits(whole) && AllDigits(frac) && whole + frac != ""
  }

  /** The point of digits, point, anything is where the digits end. */
  lemma {:induction false} PointAfterDigits(whole: string, rest: string)
    requires AllDigits(whole) && (rest == "" || rest[0] == '.')
    ensures PointAt(whole + rest) == |whole|
  {
    if whole != [] {
      assert (whole + rest)[1..] == whole[1..] + rest;
      PointAfterDigits(whole[1..], rest);
    } else {
      assert whole + rest == rest;
    }
  }

  lemma CutTakesDecimals(whole: string, point: string, frac: string)
    requires AllDigits(whole) && (point == "." || (point == "" && frac == ""))
    ensures Cut(whole + point + frac) == (whole, frac)
  {
    var t := whole + point + frac;
    assert t == whole + (point + frac);
    PointAfterDigits(whole, point + frac);
    assert t[..|whole|] == whole;
    if point == "." { assert t[|whole| + 1..] == frac; }
  }

  lemma UnsignedTakesSign(sign: string, t: string)
    requires sign == "" || sign == "-" || sign == "+"
    requires sign == "" ==> !Signed(t)
    ensures Unsigned(sign + t) == t
    ensures Signed(sign + t) && (sign + t)[0] == '-' <==> sign == "-"
  {
    if sign == "" { assert sign + t == t; } else { assert (sign + t)[1..] == t; }
  }

  /** Text in the grammar splits into its parts. */
  lemma SplitTakesDecimals(s: string, sign: string, whole: string, point: string, frac: string)
    requires IsDecimal(s, sign, whole, point, frac)
    ensures SplitDecimal(s) == Some(Parts(sign == "-", whole, frac))
  {
    var t := whole + point + frac;
    assert !Signed(t) by {
      if whole != [] { assert t[0] == whole[0]; } else { assert t[0] == '.'; }
    }
    CutTakesDecimals(whole, point, frac);
    UnsignedTakesSign(sign, t);
  }

  lemma JoinAt(t: string, at: nat)
    requires at < |t|
    ensures t == t[..at] + [t[at]] + t[at + 1..]
  {
  }

  lemma CutJoins(t: string) returns (point: string)
    ensures var (whole, frac) := Cut(t);
            && t == whole + point + frac
            && (point == "." || (point == "" && frac == ""))
  {
    var at := PointAt(t);
    if at < |t| {
      point := [t[at]];
      JoinAt(t, at);
    } else {
      point := "";
      assert t[..at] == t;
    }
  }

  /** Text that splits is in the grammar, with the parts it split into. */
  lemma SplitIsDecimal(s: string) returns (sign: string, point: string)
    requires SplitDecimal(s).Some?
    ensures var p := SplitDecimal(s).value;
            IsDecimal(s, sign, p.whole, point, p.frac) && (p.neg <==> sign == "-")
  {
    sign := SignJoins(s);
    point := CutJoins(Unsigned(s));
  }

  lemma SignJoins(s: string) returns (sign: string)
    ensures s == sign + Unsigned(s)
    ensures sign == "" || sign == "-" || sign == "+"
    ensures Signed(s) && s[0] == '-' <==> sign == "-"
  {
    if Signed(s) {
      sign := [s[0]];
      assert s == [s[0]] + s[1..];
    } else {
      sign := "";
      assert s == "" + s;
    }
  }

  // ---- the number denoted ----

  /** units / 10^places. */
  datatype Number = Number(units: int, places: nat)

  /** The digits read as one number, over 10 to the number of places. */
  function NumberOf(p: Parts): Number
    requires AllDigits(p.whole) && AllDigits(p.frac)
  {
    Number(WithSign(p.neg, DigitsValue(p.whole + p.frac)), |p.frac|)
  }

  function WithSign(neg: bool, v: int): int {
    if neg then -v else v
  }

  /** The number a text denotes. */
  function Denotes(s: string): Option<Number> {
    match SplitDecimal(s) case None => None case Some(p) => Some(NumberOf(p))
  }

  /** Printing parts and splitting the print gives the parts back, "0" standing
      for no digits before the point. */
  lemma TextSplitsBack(neg: bool, whole: string, frac: string)
    requires AllDigits(whole) && AllDigits(frac)
    ensures SplitDecimal(DecimalText(neg, whole, frac)) ==
            Some(Parts(neg, if whole == "" then "0" else whole, frac))
  {
    var w := if whole == "" then "0" else whole;
    var sign, point := if neg then "-" else "", if frac == "" then "" else ".";
    assert DecimalText(neg, whole, frac) == sign + (w + point + frac);
    SplitTakesDecimals(DecimalText(neg, whole, frac), sign, w, point, frac);
  }

  lemma {:induction false} TrimmedAppend(a: string, b: string)
    ensures TrimZeros(a + b) == if TrimZeros(a) == "" then TrimZeros(b) else TrimZeros(a) + b
  {
    if a == "" {
      assert a + b == b;
    } else {
      assert (a + b)[0] == a[0] && (a + b)[1..] == a[1..] + b;
      if a[0] == '0' { TrimmedAppend(a[1..], b); }
    }
  }

  /** Zeros in front of the whole part change no value. */
  lemma TrimmedPartsSameValue(whole: string, frac: string)
    requires AllDigits(whole) && AllDigits(frac)
    ensures var w := if TrimZeros(whole) == "" then "0" else TrimZeros(whole);
            AllDigits(w) && DigitsValue(w + frac) == DigitsValue(whole + frac)
  {
    var t := TrimZeros(whole);
    var w := if t == "" then "0" else t;
    ZeroIsZero();
    TrimmedAppend(whole, frac);
    TrimmedAppend(w, frac);
    TrimKeepsValue(whole + frac);
    TrimKeepsValue(w + frac);
    TrimTwice(whole);
  }

  /** The print of trimmed parts denotes the number the parts did. */
  lemma TextDenotesSame(p: Parts)
    requires AllDigits(p.whole) && AllDigits(p.frac)
    ensures Denotes(DecimalText(p.neg, TrimZeros(p.whole), p.frac)) == Some(NumberOf(p))
  {
    TextSplitsBack(p.neg, TrimZeros(p.whole), p.frac);
    TrimmedPartsSameValue(p.whole, p.frac);
  }

  lemma ZeroIsZero()
    ensures AllDigits("0") && DigitsValue("0") == 0 && TrimZeros("0") == ""
  {
    assert "0"[..0] == "" && "0"[1..] == "";
  }

  /** Canonical text: no zero to lose, so splitting, trimming and printing it
      again changes nothing. */
  lemma TextIsCanonical(neg: bool, whole: string, frac: string)
    requires AllDigits(whole) && AllDigits(frac)
    ensures var text := DecimalText(neg, TrimZeros(whole), frac);
            && SplitDecimal(text).Some?
            && var q := SplitDecimal(text).value;
               q.neg == neg && q.frac == frac && TrimZeros(q.whole) == TrimZeros(whole)
  {
    TextSplitsBack(neg, TrimZeros(whole), frac);
    ZeroIsZero();
    TrimTwice(whole);
  }

  lemma TrimTwice(s: string)
    ensures TrimZeros(TrimZeros(s)) == TrimZeros(s)
  {
  }

  // ---- integers as text ----

  function NatText(n: nat): (s: string)
    ensures s != "" && AllDigits(s)
    ensures DigitsValue(s) == n
    ensures n > 0 ==> s[0] != '0'
  {
    if n < 10 then
      var d := [(n + '0' as int) as char];
      assert d[..0] == [];
      d
    else
      var init, last := NatText(n / 10), (n % 10 + '0' as int) as char;
      assert (init + [last])[..|init|] == init;
      init + [last]
  }

  /** strconv.FormatInt(n, 10). */
  function IntText(n: int): string {
    if n < 0 then "-" + NatText(-n) else NatText(n)
  }

  /** An integer's text denotes it. */
  lemma IntTextDenotes(n: int)
    ensures Denotes(IntText(n)) == Some(Number(n, 0))
    ensures SplitDecimal(IntText(n)) == Some(Parts(n < 0, NatText(if n < 0 then -n else n), ""))
  {
    var sign, digits := if n < 0 then "-" else "", NatText(if n < 0 then -n else n);
    assert IntText(n) == sign + (digits + "" + "");
    SplitTakesDecimals(IntText(n), sign, digits, "", "");
    assert digits + "" == digits;
  }
}
