/**
 One converter per column type, over the values the driver takes, and the
 promise made of all of them: what a converter returns, passed again, comes
 back unchanged.
 */
module BulkValue {
  import opened Wrappers
  import opened Decimals
  import opened NumberConverters
  import opened CharConverters
  import opened TimeConverters

  /** A driver value. Text is valid UTF-8; BadText is text that is not. A time is
      an instant and its location, by number. */
  datatype Value =
    | Int(n: int)
    | Real(f: Float)
    | Bool(b: bool)
    | Text(s: string)
    | BadText(raw: seq<byte>)
    | Bytes(bytes: seq<byte>)
    | Time(nanos: int, zone: nat)
    | Foreign(id: int)

  /** What the converter takes from its environment: the text of a float rounded
      to some places, the reader of UTF-8 bytes, and the locations. */
  datatype Env = Env(floatText: (real, nat) -> string, utf8: seq<byte> -> Option<string>, zone: nat -> Zone)

  /** A column by what its type checks. */
  datatype Column =
    | BitColumn
    | IntColumn(lo: int, hi: int)
    | DecimalColumn(precision: nat, scale: nat)
    | MoneyColumn(low: int, high: int)
    | DateColumn(kind: Kind)
    | SmallDateTimeColumn
    | BinaryColumn(size: int, zeroPadded: bool)
    | NCharColumn(units: int, fixed: bool)
    | Utf8CharColumn(length: int, fixed: bool)
    | CharColumn(length: int, fixed: bool, page: Page, database: Page)
    | UncheckedColumn

  /** The column types SQL Server has: the four integer ranges, a scale within the
      precision, one page per code page number. */
  ghost predicate ValidColumn(c: Column) {
    match c
    case IntColumn(lo, hi) => IntegerType(lo, hi)
    case DecimalColumn(precision, scale) => scale <= precision
    case MoneyColumn(low, high) => low < 0 <= high
    case CharColumn(_, _, page, database) => page.id == database.id ==> page == database
    case _ => true
  }

  function Lower(c: char): char {
    if 'A' <= c <= 'Z' then (c as int + 32) as char else c
  }

  function LowerText(s: string): (r: string)
    ensures |r| == |s|
  {
    seq(|s|, i requires 0 <= i < |s| => Lower(s[i]))
  }

  function ConvertBit(v: Value): Result<Value, Reason> {
    match v
    case Text(s) =>
      var t := LowerText(s);
      if t == "1" || t == "true" then Ok(Bool(true))
      else if t == "0" || t == "false" then Ok(Bool(false))
      else Err(NotABit)
    case BadText(_) => Err(NotABit)
    case _ => Ok(v)
  }

  function Lift<T>(r: Result<T, Reason>, wrap: T -> Value): Result<Value, Reason> {
    match r case Ok(x) => Ok(wrap(x)) case Err(e) => Err(e)
  }

  function ConvertInt(lo: int, hi: int, v: Value): Result<Value, Reason> {
    match v
    case Int(n) => Lift(IntOfInt(lo, hi, n), x => Int(x))
    case Real(f) => Lift(IntOfFloat(lo, hi, f), x => Int(x))
    case Text(s) => Lift(IntOfText(lo, hi, s), x => Int(x))
    case BadText(_) => Err(NotAnInteger)
    case _ => Ok(v)
  }

  /** A number's text, as decimal and money check it; none for a value that is no
      number and passes through. */
  function NumberText(env: Env, v: Value, places: nat): Option<Result<string, Reason>> {
    match v
    case Text(s) => Some(Ok(s))
    case BadText(_) => Some(Err(NotADecimal))
    case Int(n) => Some(Ok(IntText(n)))
    case Real(Finite(r)) => Some(Ok(env.floatText(r, places)))
    case Real(_) => Some(Err(NotFinite))
    case _ => None
  }

  /** A check of decimal text, on any value. */
  function ConvertNumber(env: Env, places: nat, check: string -> Result<string, Reason>, v: Value)
    : Result<Value, Reason>
  {
    match NumberText(env, v, places)
    case None => Ok(v)
    case Some(Err(e)) => Err(e)
    case Some(Ok(s)) => Lift(check(s), x => Text(x))
  }

  function DecimalCheck(precision: nat, scale: nat): string -> Result<string, Reason>
    requires scale <= precision
  {
    s => DecimalConv(precision, scale, s)
  }

  function MoneyCheck(low: int, high: int): string -> Result<string, Reason> {
    s => MoneyConv(low, high, s)
  }

  /** Text, or an integer's. */
  function TextOf(v: Value): Option<string> {
    match v case Text(s) => Some(s) case Int(n) => Some(IntText(n)) case _ => None
  }

  function ConvertMeasured(m: Measure, n: int, fixed: bool, v: Value): Result<Value, Reason> {
    if v.BadText? then Err(NotUtf8)
    else match TextOf(v)
      case None => Ok(v)
      case Some(s) => Lift(MeasuredText(m, n, fixed, s), x => Text(x))
  }

  function ConvertUtf8Char(env: Env, n: int, fixed: bool, v: Value): Result<Value, Reason> {
    match v
    case Bytes(b) => (
      match env.utf8(b)
      case None => Err(NotUtf8)
      case Some(s) => ConvertMeasured(Utf8, n, fixed, Text(s))
    )
    case _ => ConvertMeasured(Utf8, n, fixed, v)
  }

  function ConvertChar(n: int, fixed: bool, page: Page, database: Page, v: Value): Result<Value, Reason> {
    match v
    case Bytes(b) => Lift(CharBytes(n, fixed, page, database, b), x => Bytes(x))
    case BadText(_) => Err(NotUtf8)
    case _ =>
      match TextOf(v)
      case None => Ok(v)
      case Some(s) => Lift(CharText(n, fixed, page, database, s), x => Bytes(x))
  }

  function ConvertDate(env: Env, kind: Kind, v: Value): Result<Value, Reason> {
    if v.Time? then Lift(DateInRange(kind, v.nanos, env.zone(v.zone).offset(v.nanos)), t => v.(nanos := t)) else Ok(v)
  }

  function ConvertSmallDateTime(env: Env, v: Value): Result<Value, Reason> {
    if v.Time? then Lift(SmallDateTime(env.zone(v.zone), v.nanos), t => v.(nanos := t)) else Ok(v)
  }

  function Convert(env: Env, c: Column, v: Value): Result<Value, Reason>
    requires ValidColumn(c)
  {
    match c
    case BitColumn => ConvertBit(v)
    case IntColumn(lo, hi) => ConvertInt(lo, hi, v)
    case DecimalColumn(precision, scale) => ConvertNumber(env, scale, DecimalCheck(precision, scale), v)
    case MoneyColumn(low, high) => ConvertNumber(env, 4, MoneyCheck(low, high), v)
    case DateColumn(kind) => ConvertDate(env, kind, v)
    case SmallDateTimeColumn => ConvertSmallDateTime(env, v)
    case BinaryColumn(size, zeroPadded) =>
      if v.Bytes? then Lift(BinaryConv(size, zeroPadded, v.bytes), x => Bytes(x)) else Ok(v)
    case NCharColumn(units, fixed) => ConvertMeasured(Utf16, units, fixed, v)
    case Utf8CharColumn(length, fixed) => ConvertUtf8Char(env, length, fixed, v)
    case CharColumn(length, fixed, page, database) => ConvertChar(length, fixed, page, database, v)
    case UncheckedColumn => Ok(v)
  }

  ghost predicate IdempotentCheck(check: string -> Result<string, Reason>) {
    forall s: string :: check(s).Ok? ==> check(check(s).value) == check(s)
  }

  /** A check that is idempotent on text is on every value. */
  lemma NumberIsIdempotent(env: Env, places: nat, check: string -> Result<string, Reason>, v: Value)
    requires IdempotentCheck(check) && ConvertNumber(env, places, check, v).Ok?
    ensures ConvertNumber(env, places, check, ConvertNumber(env, places, check, v).value)
            == ConvertNumber(env, places, check, v)
  {
  }

  lemma DecimalChecksTwice(precision: nat, scale: nat)
    requires scale <= precision
    ensures IdempotentCheck(DecimalCheck(precision, scale))
  {
    forall s: string | DecimalConv(precision, scale, s).Ok?
      ensures DecimalConv(precision, scale, DecimalConv(precision, scale, s).value) == DecimalConv(precision, scale, s)
    {
      DecimalIsIdempotent(precision, scale, s);
    }
  }

  lemma MoneyChecksTwice(low: int, high: int)
    requires low < 0 <= high
    ensures IdempotentCheck(MoneyCheck(low, high))
  {
    forall s: string | MoneyConv(low, high, s).Ok?
      ensures MoneyConv(low, high, MoneyConv(low, high, s).value) == MoneyConv(low, high, s)
    {
      MoneyIsIdempotent(low, high, s);
    }
  }

  lemma MeasuredIsIdempotent(m: Measure, n: int, fixed: bool, v: Value)
    requires ConvertMeasured(m, n, fixed, v).Ok?
    ensures ConvertMeasured(m, n, fixed, ConvertMeasured(m, n, fixed, v).value) == ConvertMeasured(m, n, fixed, v)
    ensures TextOf(v).Some? ==> ConvertMeasured(m, n, fixed, v).value.Text?
  {
    if TextOf(v).Some? { MeasuredTextFits(m, n, fixed, TextOf(v).value); }
  }

  lemma Utf8CharIsIdempotent(env: Env, n: int, fixed: bool, v: Value)
    requires ConvertUtf8Char(env, n, fixed, v).Ok?
    ensures ConvertUtf8Char(env, n, fixed, ConvertUtf8Char(env, n, fixed, v).value) == ConvertUtf8Char(env, n, fixed, v)
  {
    MeasuredIsIdempotent(Utf8, n, fixed, if v.Bytes? then Text(env.utf8(v.bytes).value) else v);
  }

  lemma CharColumnIsIdempotent(n: int, fixed: bool, page: Page, database: Page, v: Value)
    requires (page.id == database.id ==> page == database) && ConvertChar(n, fixed, page, database, v).Ok?
    ensures ConvertChar(n, fixed, page, database, ConvertChar(n, fixed, page, database, v).value)
            == ConvertChar(n, fixed, page, database, v)
  {
    if v.Bytes? {
      CharBytesIsIdempotent(n, fixed, page, database, v.bytes);
    } else if TextOf(v).Some? {
      CharIsIdempotent(n, fixed, page, database, TextOf(v).value);
    }
  }

  /** The offset in force at a time is less than 29.999 seconds past a minute. */
  predicate KeepsMinutes(env: Env, v: Value) {
    v.Time? ==> MillisInMinute(env.zone(v.zone).offset(v.nanos)) < 29_999
  }

  /** Every converter is idempotent but smalldatetime's: what one returns, passed
      again, comes back unchanged, and a rounded time does exactly if its location
      keeps its minute. */
  lemma ConvertAgainIff(env: Env, c: Column, v: Value)
    requires ValidColumn(c) && Convert(env, c, v).Ok?
    ensures Convert(env, c, Convert(env, c, v).value) == Convert(env, c, v)
            <==> (c.SmallDateTimeColumn? ==> KeepsMinutes(env, Convert(env, c, v).value))
  {
    match c
    case DecimalColumn(precision, scale) =>
      DecimalChecksTwice(precision, scale);
      NumberIsIdempotent(env, scale, DecimalCheck(precision, scale), v);
    case MoneyColumn(low, high) =>
      MoneyChecksTwice(low, high);
      NumberIsIdempotent(env, 4, MoneyCheck(low, high), v);
    case SmallDateTimeColumn => if v.Time? { SmallDateTimeAgainIff(env.zone(v.zone), v.nanos); }
    case BinaryColumn(size, zeroPadded) => if v.Bytes? { BinaryIsIdempotent(size, zeroPadded, v.bytes); }
    case NCharColumn(units, fixed) => MeasuredIsIdempotent(Utf16, units, fixed, v);
    case Utf8CharColumn(length, fixed) => Utf8CharIsIdempotent(env, length, fixed, v);
    case CharColumn(length, fixed, page, database) => CharColumnIsIdempotent(length, fixed, page, database, v);
    case _ =>
  }

  /** An integer is taken by a decimal column exactly when it has no more than
      precision-scale digits, and is sent as its own text. */
  lemma DecimalTakesIntegers(env: Env, precision: nat, scale: nat, n: int)
    requires scale <= precision
    ensures var r := Convert(env, DecimalColumn(precision, scale), Int(n));
      && (r.Ok? <==> Abs(n) < Pow10(precision - scale))
      && (r.Ok? ==> r.value.Text? && Denotes(r.value.s) == Some(Number(n, 0)))
  {
    IntTextDenotes(n);
    DecimalAccepts(precision, scale, IntText(n));
  }

  // ---- what each column takes ----

  /** s is the lower-case ASCII word t with some of its letters in upper case. */
  predicate Spells(s: string, t: string) {
    |s| == |t| && forall i :: 0 <= i < |s| ==> s[i] == t[i] || s[i] as int == t[i] as int - 32
  }

  lemma SpelledLower(s: string, t: string)
    requires forall i :: 0 <= i < |t| ==> 'a' <= t[i] <= 'z'
    ensures LowerText(s) == t <==> Spells(s, t)
  {
    if LowerText(s) == t {
      forall i | 0 <= i < |s| ensures s[i] == t[i] || s[i] as int == t[i] as int - 32 {
        assert LowerText(s)[i] == t[i];
      }
    }
  }

  lemma DigitLower(s: string, d: char)
    requires '0' <= d <= '9'
    ensures LowerText(s) == [d] <==> s == [d]
  {
    if |s| == 1 { assert LowerText(s)[0] == Lower(s[0]); }
  }

  /** bit takes 1, 0 and the two words in any case, refuses all other text, and
      leaves the rest to the driver. */
  lemma BitsTaken(env: Env, s: string, v: Value)
    ensures var r := Convert(env, BitColumn, Text(s));
      && (r == Ok(Bool(true)) <==> s == "1" || Spells(s, "true"))
      && (r == Ok(Bool(false)) <==> s == "0" || Spells(s, "false"))
      && (r.Ok? ==> r.value.Bool?)
    ensures !v.Text? && !v.BadText? ==> Convert(env, BitColumn, v) == Ok(v)
  {
    SpelledLower(s, "true");
    SpelledLower(s, "false");
    DigitLower(s, '1');
    DigitLower(s, '0');
  }

  /** An integer column takes integers, whole floats and integer text in range,
      and sends the number. */
  lemma IntegersTaken(env: Env, lo: int, hi: int, n: int, f: Float)
    requires IntegerType(lo, hi)
    ensures Convert(env, IntColumn(lo, hi), Int(n)) == if lo <= n <= hi then Ok(Int(n)) else Err(OutOfRange)
    ensures Convert(env, IntColumn(lo, hi), Real(f)) == Ok(Int(n)) <==> lo <= n <= hi && Holds(f, n)
  {
    IntTakesWholeFloats(lo, hi, f);
    if lo <= n <= hi && Holds(f, n) { assert (n as real).Floor == n; }
  }

  lemma IntegerTextTaken(env: Env, lo: int, hi: int, s: string)
    requires IntegerType(lo, hi)
    ensures var r := Convert(env, IntColumn(lo, hi), Text(s));
      && (r.Ok? ==> r.value.Int? && lo <= r.value.n <= hi && Denotes(s) == Some(Number(r.value.n, 0)))
      && (r.Ok? <==>
            exists sign, digits :: IsDecimal(s, sign, digits, "", "")
              && lo <= WithSign(sign == "-", DigitsValue(digits)) <= hi)
  {
    IntTakesIntegerText(lo, hi, s);
  }

  /** The text a number column reads: the value's own, an integer's, or a finite
      float's rounded to the column's places. */
  ghost predicate ReadAs(env: Env, v: Value, places: nat, s: string) {
    || v == Text(s)
    || (v.Int? && Denotes(s) == Some(Number(v.n, 0)) && s == IntText(v.n))
    || (v.Real? && v.f.Finite? && s == env.floatText(v.f.r, places))
  }

  /** A decimal column takes the numbers that fit it, and sends text for the same
      number; what is no number it refuses or leaves to the driver. */
  lemma DecimalsTaken(env: Env, precision: nat, scale: nat, v: Value, s: string)
    requires scale <= precision && ReadAs(env, v, scale, s)
    ensures var r := Convert(env, DecimalColumn(precision, scale), v);
      && (r.Ok? <==> Denotes(s).Some? && FitsDecimal(Denotes(s).value, precision, scale))
      && (r.Ok? ==> r.value.Text? && Denotes(r.value.s) == Denotes(s))
  {
    DecimalAccepts(precision, scale, s);
  }

  /** ... and a money column, to four places. */
  lemma MoneyTaken(env: Env, low: int, high: int, v: Value, s: string)
    requires low < 0 <= high && ReadAs(env, v, 4, s)
    ensures var r := Convert(env, MoneyColumn(low, high), v);
      && (r.Ok? <==> Denotes(s).Some? && FitsMoney(Denotes(s).value, low, high))
      && (r.Ok? ==> r.value.Text? && Denotes(r.value.s) == Denotes(s))
  {
    MoneyAccepts(low, high, s);
  }

  /** Text, or an integer's, as a text column reads it. */
  ghost predicate Spelled(v: Value, s: string) {
    v == Text(s) || (v.Int? && s == IntText(v.n))
  }

  /** A value that fits n of a column's units, kept and filled up with spaces to
      n where the length is fixed. */
  ghost predicate Kept(m: Measure, n: int, fixed: bool, s: string, r: Result<Value, Reason>) {
    && (r.Ok? <==> n <= 0 || Length(m, s) <= n)
    && (r.Ok? ==>
          && r.value.Text? && s <= r.value.s
          && (forall i :: |s| <= i < |r.value.s| ==> r.value.s[i] == ' ')
          && (if n > 0 && fixed then Length(m, r.value.s) == n else r.value.s == s))
  }

  lemma MeasuredTaken(m: Measure, n: int, fixed: bool, v: Value, s: string)
    requires Spelled(v, s)
    ensures Kept(m, n, fixed, s, ConvertMeasured(m, n, fixed, v))
  {
    MeasuredTextFits(m, n, fixed, s);
  }

  /** nchar and nvarchar measure UTF-16 units, a UTF-8 column bytes, where a
      caller's bytes are the text they encode. */
  lemma TextsTaken(env: Env, n: int, fixed: bool, v: Value, s: string)
    requires Spelled(v, s)
    ensures Kept(Utf16, n, fixed, s, Convert(env, NCharColumn(n, fixed), v))
    ensures Kept(Utf8, n, fixed, s, Convert(env, Utf8CharColumn(n, fixed), v))
  {
    MeasuredTaken(Utf16, n, fixed, v, s);
    MeasuredTaken(Utf8, n, fixed, v, s);
  }

  lemma Utf8BytesTaken(env: Env, n: int, fixed: bool, b: seq<byte>)
    ensures var r := Convert(env, Utf8CharColumn(n, fixed), Bytes(b));
            match env.utf8(b)
            case None => r == Err(NotUtf8)
            case Some(s) => Kept(Utf8, n, fixed, s, r)
  {
    if env.utf8(b).Some? { TextsTaken(env, n, fixed, Text(env.utf8(b).value), env.utf8(b).value); }
  }

  /** A char column takes text both pages have and its own page's bytes fit, and
      sends bytes the database's page reads as the text and its padding. */
  lemma CharsTaken(env: Env, n: int, fixed: bool, page: Page, database: Page, v: Value, s: string)
    requires ValidPage(page) && ValidPage(database) && (page.id == database.id ==> page == database)
    requires Spelled(v, s)
    ensures var r := Convert(env, CharColumn(n, fixed, page, database), v);
      && (r.Ok? <==> Encode(page, s).Some? && Encode(database, s).Some? && (n > 0 ==> |Encode(page, s).value| <= n))
      && (r.Ok? ==> r.value.Bytes? && Decode(database, r.value.bytes) == Some(Padded(n, fixed, page, s)))
  {
    CharTextArrives(n, fixed, page, database, s);
  }

  /** Bytes, at a char column and at a binary one. */
  lemma BytesTaken(env: Env, n: int, fixed: bool, page: Page, database: Page, b: seq<byte>)
    requires page.id == database.id ==> page == database
    ensures var r := Convert(env, CharColumn(n, fixed, page, database), Bytes(b));
      if page.id != database.id then r == Ok(Bytes(b))
      else (r.Ok? <==> n <= 0 || |b| <= n) && (r.Ok? ==> r.value.Bytes? && Filled(b, 0x20, n, fixed, r.value.bytes))
    ensures var r := Convert(env, BinaryColumn(n, fixed), Bytes(b));
      (r.Ok? <==> n <= 0 || |b| <= n) && (r.Ok? ==> r.value.Bytes? && Filled(b, 0, n, fixed, r.value.bytes))
  {
    CharBytesFit(n, fixed, page, database, b);
    BinaryFits(n, fixed, b);
  }

  /** A column's converter looks at the value. */
  predicate Looks(c: Column, v: Value) {
    match c
    case BitColumn => v.Text? || v.BadText?
    case IntColumn(_, _) => v.Text? || v.BadText? || v.Int? || v.Real?
    case DecimalColumn(_, _) => v.Text? || v.BadText? || v.Int? || v.Real?
    case MoneyColumn(_, _) => v.Text? || v.BadText? || v.Int? || v.Real?
    case DateColumn(_) => v.Time?
    case SmallDateTimeColumn => v.Time?
    case BinaryColumn(_, _) => v.Bytes?
    case NCharColumn(_, _) => v.Text? || v.BadText? || v.Int?
    case Utf8CharColumn(_, _) => v.Text? || v.BadText? || v.Int? || v.Bytes?
    case CharColumn(_, _, _, _) => v.Text? || v.BadText? || v.Int? || v.Bytes?
    case UncheckedColumn => false
  }

  /** Every other value is passed on as it is; text that is no UTF-8, and a float
      that is not finite, no column that looks at it takes. */
  lemma OthersPassOn(env: Env, c: Column, v: Value)
    requires ValidColumn(c)
    ensures !Looks(c, v) ==> Convert(env, c, v) == Ok(v)
    ensures Looks(c, v) && (v.BadText? || (v.Real? && !v.f.Finite?)) ==> Convert(env, c, v).Err?
  {
  }

  /** A time keeps its location. */
  lemma DatesKeepZone(env: Env, nanos: int, zone: nat, kind: Kind)
    ensures var r, t := Convert(env, DateColumn(kind), Time(nanos, zone)),
                        DateInRange(kind, nanos, env.zone(zone).offset(nanos));
            if t.Ok? then r == Ok(Time(nanos, zone)) else r == Err(OutOfRange)
  {
  }

  lemma MinutesKeepZone(env: Env, nanos: int, zone: nat)
    ensures var r, t := Convert(env, SmallDateTimeColumn, Time(nanos, zone)), SmallDateTime(env.zone(zone), nanos);
            if t.Ok? then r == Ok(Time(t.value, zone)) else r == Err(OutOfRange)
  {
  }
}
