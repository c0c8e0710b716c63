/**
 The text and byte converters of a bulk load: lengths in UTF-16 units, UTF-8
 bytes or a code page's bytes, and padding.
 */
module CharConverters {
  import opened Wrappers
  import opened NumberConverters

  type byte = x: int | 0 <= x < 256

  const SPACE_BYTE: byte := 0x20

  /** A code page: the bytes of each character it has. */
  datatype Page = Page(id: int, encode: char -> Option<seq<byte>>)

  /** The whole text's bytes, character by character; none if one is missing. */
  function Encode(p: Page, s: string): Option<seq<byte>> {
    if s == [] then Some([])
    else
      match (Encode(p, s[..|s| - 1]), p.encode(s[|s| - 1]))
      case (Some(init), Some(last)) => Some(init + last)
      case _ => None
  }

  predicate HasCode(p: Page, c: char, code: seq<byte>) {
    p.encode(c) == Some(code)
  }

  /** The bytes start with the character's code. */
  predicate StartsWith(p: Page, c: char, b: seq<byte>) {
    p.encode(c).Some? && p.encode(c).value != [] && p.encode(c).value <= b
  }

  /** One character's code is the start of another's. */
  predicate CodeStarts(p: Page, c: char, d: char) {
    p.encode(d).Some? && StartsWith(p, c, p.encode(d).value)
  }

  /** A page's codes tell its characters apart: none is empty or the start of
      another's, and a space is one byte. */
  ghost predicate ValidPage(p: Page) {
    && HasCode(p, ' ', [SPACE_BYTE])
    && (forall c, code :: HasCode(p, c, code) ==> code != [])
    && (forall c, d :: CodeStarts(p, c, d) ==> c == d)
  }

  /** Reading bytes, one code at a time. */
  ghost function Decode(p: Page, b: seq<byte>): Option<string>
    decreases |b|
  {
    if b == [] then Some("")
    else if c :| StartsWith(p, c, b) then
      match Decode(p, b[|p.encode(c).value|..]) case None => None case Some(rest) => Some([c] + rest)
    else None
  }

  lemma {:induction false} EncodeCons(p: Page, c: char, s: string)
    ensures Encode(p, [c] + s) ==
      match (p.encode(c), Encode(p, s)) case (Some(code), Some(rest)) => Some(code + rest) case _ => None
  {
    if s == [] {
      assert [c] + s == [c] && [c][..0] == [];
      if p.encode(c).Some? { assert [] + p.encode(c).value == p.encode(c).value == p.encode(c).value + []; }
    } else {
      var init, last := s[..|s| - 1], s[|s| - 1];
      EncodeCons(p, c, init);
      assert ([c] + s)[..|s|] == [c] + init;
      if p.encode(c).Some? && Encode(p, s).Some? {
        assert p.encode(c).value + (Encode(p, init).value + p.encode(last).value)
            == p.encode(c).value + Encode(p, init).value + p.encode(last).value;
      }
    }
  }

  lemma OneStarts(p: Page, c: char, d: char, b: seq<byte>)
    requires ValidPage(p) && StartsWith(p, c, b) && StartsWith(p, d, b)
    ensures c == d
  {
    var m, n := p.encode(c).value, p.encode(d).value;
    assert m == b[..|m|] && n == b[..|n|];
    assert if |m| <= |n| then CodeStarts(p, c, d) else CodeStarts(p, d, c);
  }

  lemma DecodeOne(p: Page, c: char, code: seq<byte>, rest: seq<byte>)
    requires ValidPage(p) && HasCode(p, c, code)
    ensures Decode(p, code + rest) ==
      match Decode(p, rest) case None => None case Some(s) => Some([c] + s)
  {
    assert StartsWith(p, c, code + rest);
    forall d | StartsWith(p, d, code + rest) ensures d == c { OneStarts(p, c, d, code + rest); }
    assert (code + rest)[|code|..] == rest;
  }

  /** Encoded text reads back. */
  lemma {:induction false} DecodeUndoesEncode(p: Page, s: string)
    requires ValidPage(p) && Encode(p, s).Some?
    ensures Decode(p, Encode(p, s).value) == Some(s)
  {
    if s != [] {
      assert s == [s[0]] + s[1..];
      EncodeCons(p, s[0], s[1..]);
      DecodeUndoesEncode(p, s[1..]);
      DecodeOne(p, s[0], p.encode(s[0]).value, Encode(p, s[1..]).value);
    }
  }

  function Spaces(n: nat): (s: string)
    ensures |s| == n && forall i :: 0 <= i < n ==> s[i] == ' '
  {
    seq(n, i => ' ')
  }

  function SpaceBytes(n: nat): (s: seq<byte>)
    ensures |s| == n && forall i :: 0 <= i < n ==> s[i] == SPACE_BYTE
  {
    seq(n, i => SPACE_BYTE)
  }

  /** Padding takes one byte a space, after the text's own. */
  lemma {:induction false} EncodePadded(p: Page, s: string, n: nat)
    requires p.encode(' ') == Some([SPACE_BYTE])
    ensures Encode(p, s + Spaces(n)) ==
      match Encode(p, s) case None => None case Some(b) => Some(b + SpaceBytes(n))
  {
    if n == 0 {
      assert s + Spaces(0) == s;
      if Encode(p, s).Some? { assert Encode(p, s).value + SpaceBytes(0) == Encode(p, s).value; }
    } else {
      var padded := s + Spaces(n);
      assert padded[..|padded| - 1] == s + Spaces(n - 1);
      assert padded[|padded| - 1] == ' ';
      EncodePadded(p, s, n - 1);
      if Encode(p, s).Some? {
        assert (Encode(p, s).value + SpaceBytes(n - 1)) + [SPACE_BYTE] == Encode(p, s).value + SpaceBytes(n);
      }
    }
  }

  // ---- char, varchar, text in a code page ----

  /** charConv's text path; a length of 0 or less is (max). */
  function CharText(n: int, fixed: bool, col: Page, db: Page, s: string): Result<seq<byte>, Reason> {
    var measure := if col.id == db.id then db else col;
    match Encode(measure, s)
    case None => Err(NotInCodePage)
    case Some(stored) =>
      if n > 0 && |stored| > n then Err(TooLong)
      else
        var pad := if fixed && |stored| < n then n - |stored| else 0;
        if col.id == db.id then Ok(stored + SpaceBytes(pad))
        else
          match Encode(db, s + Spaces(pad))
          case None => Err(NotInCodePage)
          case Some(b) => Ok(b)
  }

  /** charConv's byte path: taken as encoded already, measured only when the
      bytes are the column's. */
  function CharBytes(n: int, fixed: bool, col: Page, db: Page, b: seq<byte>): Result<seq<byte>, Reason> {
    if col.id != db.id then Ok(b)
    else if n > 0 && |b| > n then Err(TooLong)
    else Ok(b + SpaceBytes(if fixed && |b| < n then n - |b| else 0))
  }

  /** The text as a char column stores it. */
  function Padded(n: int, fixed: bool, col: Page, s: string): string
    requires Encode(col, s).Some?
  {
    var length := |Encode(col, s).value|;
    s + Spaces(if fixed && length < n then n - length else 0)
  }

  /** Accepted text is sent as bytes that read, in the database's page, as the
      text and its padding; in the column's page those take at most n bytes, and
      exactly n for char(n). It is accepted exactly when both pages have every
      character and the column's bytes fit. */
  lemma CharTextArrives(n: int, fixed: bool, col: Page, db: Page, s: string)
    requires ValidPage(col) && ValidPage(db) && (col.id == db.id ==> col == db)
    ensures var r := CharText(n, fixed, col, db, s);
      && (r.Ok? <==> Encode(col, s).Some? && Encode(db, s).Some? && (n > 0 ==> |Encode(col, s).value| <= n))
      && (r.Ok? ==>
            var kept := Padded(n, fixed, col, s);
            && Decode(db, r.value) == Some(kept)
            && Encode(col, kept).Some?
            && (n > 0 ==> |Encode(col, kept).value| <= n)
            && (n > 0 && fixed ==> |Encode(col, kept).value| == n))
  {
    if Encode(col, s).Some? {
      var length := |Encode(col, s).value|;
      var pad := if fixed && length < n then n - length else 0;
      EncodePadded(col, s, pad);
      EncodePadded(db, s, pad);
      if CharText(n, fixed, col, db, s).Ok? { DecodeUndoesEncode(db, s + Spaces(pad)); }
    }
  }

  /** What a char column sends, it takes again unchanged. */
  lemma CharIsIdempotent(n: int, fixed: bool, col: Page, db: Page, s: string)
    requires col.id == db.id ==> col == db
    requires CharText(n, fixed, col, db, s).Ok?
    ensures CharBytes(n, fixed, col, db, CharText(n, fixed, col, db, s).value) == CharText(n, fixed, col, db, s)
  {
    var b := CharText(n, fixed, col, db, s).value;
    if col.id == db.id { assert b + SpaceBytes(0) == b; }
  }

  lemma CharBytesIsIdempotent(n: int, fixed: bool, col: Page, db: Page, b: seq<byte>)
    requires CharBytes(n, fixed, col, db, b).Ok?
    ensures CharBytes(n, fixed, col, db, CharBytes(n, fixed, col, db, b).value) == CharBytes(n, fixed, col, db, b)
  {
    var c := CharBytes(n, fixed, col, db, b).value;
    assert c + SpaceBytes(0) == c;
  }

  /** Bytes are taken as encoded already: unchanged where the pages differ; else
      they must fit, and a char(n) is filled up with spaces. */
  lemma CharBytesFit(n: int, fixed: bool, col: Page, db: Page, b: seq<byte>)
    ensures var r := CharBytes(n, fixed, col, db, b);
      if col.id != db.id then r == Ok(b)
      else (r.Ok? <==> n <= 0 || |b| <= n) && (r.Ok? ==> Filled(b, 0x20, n, fixed, r.value))
  {
  }

  /** `to` is b, and after it, where the length is fixed, as many of the filling
      as are missing. */
  predicate Filled(b: seq<byte>, filling: byte, n: int, fixed: bool, to: seq<byte>) {
    && b <= to && (forall i :: |b| <= i < |to| ==> to[i] == filling)
    && (if fixed && |b| < n then |to| == n else to == b)
  }

  // ---- measured text: nchar and nvarchar in UTF-16 units, UTF-8 char in bytes ----

  /** Code units of one character, section 2.1 of RFC 2781. */
  function Utf16Units(c: char): nat {
    if c as int >= 0x10000 then 2 else 1
  }

  /** Bytes of one character, section 3 of RFC 3629. */
  function Utf8Bytes(c: char): nat {
    var n := c as int;
    if n < 0x80 then 1 else if n < 0x800 then 2 else if n < 0x10000 then 3 else 4
  }

  /** The bits of the scalar value that n bytes of UTF-8 carry. */
  function PayloadBits(n: nat): nat {
    if n == 1 then 7 else 5 * n + 1
  }

  function TwoTo(n: nat): nat {
    if n == 0 then 1 else 2 * TwoTo(n - 1)
  }

  lemma PayloadsHold()
    ensures TwoTo(PayloadBits(1)) == 0x80 && TwoTo(PayloadBits(2)) == 0x800
    ensures TwoTo(PayloadBits(3)) == 0x1_0000 && TwoTo(PayloadBits(4)) == 0x20_0000
  {
    assert TwoTo(7) == 0x80;
    assert TwoTo(11) == 0x800;
    assert TwoTo(16) == 0x1_0000;
    assert TwoTo(21) == 0x20_0000;
  }

  /** A character takes the fewest bytes, or 16-bit units, that carry it. */
  lemma UnitsAreFewest(c: char, n: nat)
    requires 1 <= n <= 4
    ensures Utf8Bytes(c) <= n <==> (c as int) < TwoTo(PayloadBits(n))
    ensures Utf16Units(c) == 1 <==> (c as int) < TwoTo(16)
    ensures Utf16Units(c) in {1, 2}
  {
    PayloadsHold();
  }

  /** The two measures a text column is declared in. */
  datatype Measure = Utf16 | Utf8

  function UnitsOf(m: Measure, c: char): nat {
    match m case Utf16 => Utf16Units(c) case Utf8 => Utf8Bytes(c)
  }

  function Length(m: Measure, s: string): nat {
    if s == [] then 0 else Length(m, s[..|s| - 1]) + UnitsOf(m, s[|s| - 1])
  }

  method CountUnits(s: string) returns (units: nat)
    ensures units == Length(Utf16, s)
  {
    units := 0;
    for i := 0 to |s|
      invariant units == Length(Utf16, s[..i])
    {
      assert s[..i + 1][..i] == s[..i];
      units := units + Utf16Units(s[i]);
    }
    assert s[..|s|] == s;
  }

  function MeasuredText(m: Measure, n: int, fixed: bool, s: string): Result<string, Reason> {
    if n <= 0 then Ok(s)
    else if Length(m, s) > n then Err(TooLong)
    else Ok(s + Spaces(if fixed then n - Length(m, s) else 0))
  }

  lemma {:induction false} LengthPadded(m: Measure, s: string, n: nat)
    ensures Length(m, s + Spaces(n)) == Length(m, s) + n
  {
    if n == 0 {
      assert s + Spaces(0) == s;
    } else {
      var padded := s + Spaces(n);
      assert padded[..|padded| - 1] == s + Spaces(n - 1);
      assert padded[|padded| - 1] == ' ';
      LengthPadded(m, s, n - 1);
    }
  }

  /** A measured column takes exactly the text that fits, keeps it, and pads a
      fixed one to its length to the unit; what it sends it takes again. */
  lemma MeasuredTextFits(m: Measure, n: int, fixed: bool, s: string)
    ensures var r := MeasuredText(m, n, fixed, s);
      && (r.Ok? <==> n <= 0 || Length(m, s) <= n)
      && (r.Ok? ==>
            && s <= r.value && (forall i :: |s| <= i < |r.value| ==> r.value[i] == ' ')
            && (n > 0 ==> Length(m, r.value) <= n)
            && (n > 0 && fixed ==> Length(m, r.value) == n)
            && (n <= 0 || !fixed ==> r.value == s)
            && MeasuredText(m, n, fixed, r.value) == r)
  {
    if n > 0 && Length(m, s) <= n {
      LengthPadded(m, s, if fixed then n - Length(m, s) else 0);
      var t := MeasuredText(m, n, fixed, s).value;
      assert t + Spaces(0) == t;
      assert s + Spaces(0) == s;
    }
  }

  // ---- binary ----

  function ZeroBytes(n: nat): (s: seq<byte>)
    ensures |s| == n && forall i :: 0 <= i < n ==> s[i] == 0
  {
    seq(n, i => 0)
  }

  function BinaryConv(n: int, fixed: bool, b: seq<byte>): Result<seq<byte>, Reason> {
    if n > 0 && |b| > n then Err(TooLong)
    else Ok(b + ZeroBytes(if fixed && |b| < n then n - |b| else 0))
  }

  /** binary takes the bytes that fit, and fills binary(n) up with zeros. */
  lemma BinaryFits(n: int, fixed: bool, b: seq<byte>)
    ensures var r := BinaryConv(n, fixed, b);
      (r.Ok? <==> n <= 0 || |b| <= n) && (r.Ok? ==> Filled(b, 0, n, fixed, r.value))
  {
  }

  lemma BinaryIsIdempotent(n: int, fixed: bool, b: seq<byte>)
    requires BinaryConv(n, fixed, b).Ok?
    ensures BinaryConv(n, fixed, BinaryConv(n, fixed, b).value) == BinaryConv(n, fixed, b)
  {
    var c := BinaryConv(n, fixed, b).value;
    assert c + ZeroBytes(0) == c;
  }

  /** A Go slice: a window of a backing array, and how far it may grow in place. */
  datatype Slice = Slice(backing: array<byte>, offset: nat, length: nat, capacity: nat) {
    ghost predicate Valid() {
      length <= capacity && offset + capacity <= backing.Length
    }

    ghost function Contents(): seq<byte>
      requires Valid()
      reads backing
    {
      backing[offset..offset + length]
    }
  }

  /** append: in place while the capacity lasts, else into a new array. */
  method Append(s: Slice, more: seq<byte>) returns (r: Slice)
    requires s.Valid()
    modifies s.backing
    ensures r.Valid() && r.Contents() == old(s.Contents()) + more
    ensures s.length + |more| <= s.capacity ==> r.backing == s.backing
    ensures s.length + |more| > s.capacity ==> fresh(r.backing) && s.backing[..] == old(s.backing[..])
    ensures |more| == 0 ==> s.backing[..] == old(s.backing[..])
  {
    var total := s.length + |more|;
    if total <= s.capacity {
      for i := 0 to |more|
        invariant s.backing[s.offset..s.offset + s.length + i] == old(s.Contents()) + more[..i]
        invariant i == 0 ==> s.backing[..] == old(s.backing[..])
      {
        s.backing[s.offset + s.length + i] := more[i];
        assert more[..i + 1] == more[..i] + [more[i]];
      }
      assert more[..|more|] == more;
      r := s.(length := total);
    } else {
      var content := s.backing[s.offset..s.offset + s.length] + more;
      var grown := new byte[total](i requires 0 <= i < |content| => content[i]);
      r := Slice(grown, 0, total, total);
      assert grown[..] == content;
    }
  }

  /** The padding of a caller's slice: its capacity is cut to its length first, so
      the caller's array is never written. */
  method PadCopy(b: Slice, padding: seq<byte>) returns (r: Slice)
    requires b.Valid() && padding != []
    modifies b.backing
    ensures b.backing[..] == old(b.backing[..])
    ensures r.Valid() && fresh(r.backing) && r.Contents() == old(b.Contents()) + padding
  {
    r := Append(b.(capacity := b.length), padding);
  }

  /** binaryConv on the caller's slice. */
  method ConvertBinary(n: int, fixed: bool, b: Slice) returns (r: Result<Slice, Reason>)
    requires b.Valid()
    modifies b.backing
    ensures b.backing[..] == old(b.backing[..])
    ensures r.Ok? ==> r.value.Valid()
    ensures match BinaryConv(n, fixed, old(b.Contents()))
            case Err(e) => r == Err(e)
            case Ok(c) => r.Ok? && r.value.Contents() == c
    ensures r.Ok? ==> r.value == b || fresh(r.value.backing)
  {
    if n > 0 && b.length > n { return Err(TooLong); }
    if fixed && b.length < n {
      var padded := PadCopy(b, ZeroBytes(n - b.length));
      return Ok(padded);
    }
    assert b.Contents() + ZeroBytes(0) == b.Contents();
    return Ok(b);
  }

  /** charConv's byte path on the caller's slice. */
  method ConvertCharBytes(n: int, fixed: bool, col: Page, db: Page, b: Slice) returns (r: Result<Slice, Reason>)
    requires b.Valid()
    modifies b.backing
    ensures b.backing[..] == old(b.backing[..])
    ensures r.Ok? ==> r.value.Valid()
    ensures match CharBytes(n, fixed, col, db, old(b.Contents()))
            case Err(e) => r == Err(e)
            case Ok(c) => r.Ok? && r.value.Contents() == c
    ensures r.Ok? ==> r.value == b || fresh(r.value.backing)
  {
    if col.id != db.id { return Ok(b); }
    if n > 0 && b.length > n { return Err(TooLong); }
    if fixed && b.length < n {
      var padded := PadCopy(b, SpaceBytes(n - b.length));
      return Ok(padded);
    }
    assert b.Contents() + SpaceBytes(0) == b.Contents();
    return Ok(b);
  }
}
